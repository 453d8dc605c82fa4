/** What a validation verdict means: no errors exactly when the value satisfies the schema,
    and every error points at a place that exists. */
module SchemaMeaning {
  import opened Wrappers
  import opened Json
  import opened SchemaCheck
  import opened JsonPointer
  import opened RefCycles
  import opened Validator

  // ---- what each keyword asks for ----

  /** The JSON types by name. An integer is a number, and no other name is met by anything. */
  predicate IsOfType(value: Json, name: string)
  {
    match value
    case Null => name == "null"
    case Bool(_) => name == "boolean"
    case Int(_) => name == "integer" || name == "number"
    case Float(_) => name == "number"
    case Str(_) => name == "string"
    case Arr(_) => name == "array"
    case Obj(_) => name == "object"
  }

  predicate TypeHolds(value: Json, d: Dict)
  {
    match Get(d, "type")
    case Some(Str(name)) => IsOfType(value, name)
    case _ => true
  }

  /** A count is at most, or at least, the limit when there is one. */
  predicate NotOver(count: int, limit: Option<Json>)
  {
    match limit
    case Some(Int(n)) => count <= n
    case _ => true
  }

  predicate NotUnder(count: int, limit: Option<Json>)
  {
    match limit
    case Some(Int(n)) => n <= count
    case _ => true
  }

  predicate Finds(text: string, pattern: Option<Json>, py: Python)
  {
    match pattern
    case Some(Str(p)) => py.search(p, text)
    case _ => true
  }

  /** The order of two JSON numbers, by value. */
  predicate Less(a: Json, b: Json)
  {
    match (a, b)
    case (Int(i), Int(j)) => i < j
    case (Int(i), Float(y)) => i as real < y
    case (Float(x), Int(j)) => x < j as real
    case (Float(x), Float(y)) => x < y
    case _ => false
  }

  predicate LessOrSame(a: Json, b: Json)
  {
    match (a, b)
    case (Int(i), Int(j)) => i <= j
    case (Int(i), Float(y)) => i as real <= y
    case (Float(x), Int(j)) => x <= j as real
    case (Float(x), Float(y)) => x <= y
    case _ => false
  }

  ghost predicate StringHolds(text: string, d: Dict, py: Python)
  {
    && NotOver(|text|, Get(d, "maxLength")) && NotUnder(|text|, Get(d, "minLength"))
    && Finds(text, Get(d, "pattern"), py)
  }

  ghost predicate NumberHolds(value: Json, d: Dict)
  {
    && (Has(d, "minimum") ==> LessOrSame(Get(d, "minimum").value, value))
    && (Has(d, "maximum") ==> LessOrSame(value, Get(d, "maximum").value))
    && (Has(d, "exclusiveMinimum") ==> Less(Get(d, "exclusiveMinimum").value, value))
    && (Has(d, "exclusiveMaximum") ==> Less(value, Get(d, "exclusiveMaximum").value))
  }

  ghost predicate ArrayHolds(items: seq<Json>, d: Dict)
  {
    && NotOver(|items|, Get(d, "maxItems")) && NotUnder(|items|, Get(d, "minItems"))
    && (Get(d, "uniqueItems") == Some(Bool(true)) ==> NoRepeats(items))
  }

  ghost predicate BoundsHold(value: Json, d: Dict, py: Python)
  {
    match value
    case Str(text) => StringHolds(text, d, py)
    case Int(_) => NumberHolds(value, d)
    case Float(_) => NumberHolds(value, d)
    case Arr(items) => ArrayHolds(items, d)
    case _ => true
  }

  ghost predicate NoRepeats(items: seq<Json>)
  {
    forall i, j :: 0 <= i < j < |items| ==> !Equal(items[i], items[j])
  }

  ghost predicate ListedOk(value: Json, d: Dict)
  {
    && (Has(d, "enum") ==> exists i :: 0 <= i < |ListAt(d, "enum")| && Equal(value, ListAt(d, "enum")[i]))
    && (Has(d, "const") ==> Equal(value, Get(d, "const").value))
  }

  // ---- satisfaction, without error lists ----

  /** The value meets every requirement the schema states. */
  ghost predicate Satisfies(value: Json, schema: Json, root: Json, py: Python)
    requires Belongs(schema, root, py)
    decreases Size(value), Height(schema, root, py), Size(schema), 3
  {
    && TypeHolds(value, schema.fields)
    && ListedOk(value, schema.fields)
    && BoundsHold(value, schema.fields, py)
    && (forall target :: Cites(schema, target, root, py) ==>
          (CitedIsLower(schema, target, root, py); Satisfies(value, target, root, py)))
    && SatisfiesAlternatives(value, schema, root, py)
    && (value.Obj? ==> SatisfiesObject(value, schema, root, py))
    && (value.Arr? && Has(schema.fields, "items") ==>
          forall i :: 0 <= i < |value.items| ==> SatisfiesItem(value, i, schema, root, py))
  }

  /** The schema's reference is to this one. */
  ghost predicate Cites(schema: Json, target: Json, root: Json, py: Python)
  {
    schema.Obj? && Get(schema.fields, "$ref").Some? && Get(schema.fields, "$ref").value.Str?
    && RefersTo(Get(schema.fields, "$ref").value.s, root, py, target)
  }

  lemma CitesMeans(schema: Json, target: Json, root: Json, py: Python)
    ensures Cites(schema, target, root, py) <==> HasRef(schema) && Resolve(RefOf(schema), root, py) == Some(target)
  {
    hide Resolve;
    hide RefersTo;
    if HasRef(schema) { ResolveMeans(RefOf(schema), root, py, target); }
  }

  lemma CitedIsLower(schema: Json, target: Json, root: Json, py: Python)
    requires Belongs(schema, root, py) && Cites(schema, target, root, py)
    ensures Belongs(target, root, py) && Height(target, root, py) < Height(schema, root, py)
  {
    CitesMeans(schema, target, root, py);
    TargetIsLower(schema, root, py);
  }

  /** Every allOf, some anyOf, exactly one oneOf. */
  ghost predicate SatisfiesAlternatives(value: Json, schema: Json, root: Json, py: Python)
    requires Belongs(schema, root, py)
    decreases Size(value), Height(schema, root, py), Size(schema), 2
  {
    var d := schema.fields;
    && (forall i :: 0 <= i < |ListAt(d, "allOf")| ==> SatisfiesOne(value, schema, ListAt(d, "allOf"), i, root, py))
    && (Has(d, "anyOf") ==>
          exists i :: 0 <= i < |ListAt(d, "anyOf")| && SatisfiesOne(value, schema, ListAt(d, "anyOf"), i, root, py))
    && (Has(d, "oneOf") ==>
          exists i :: 0 <= i < |ListAt(d, "oneOf")| && SatisfiesOnly(value, schema, ListAt(d, "oneOf"), i, root, py))
  }

  ghost predicate SatisfiesOnly(value: Json, schema: Json, subs: seq<Json>, i: nat, root: Json, py: Python)
    requires Belongs(schema, root, py) && i < |subs|
    requires AreAlternatives(subs, schema.fields)
    decreases Size(value), Height(schema, root, py), Size(schema), 1, 1
  {
    forall j :: 0 <= j < |subs| ==> (SatisfiesOne(value, schema, subs, j, root, py) <==> j == i)
  }

  ghost predicate SatisfiesOne(value: Json, schema: Json, subs: seq<Json>, i: nat, root: Json, py: Python)
    requires Belongs(schema, root, py) && i < |subs|
    requires AreAlternatives(subs, schema.fields)
    decreases Size(value), Height(schema, root, py), Size(schema), 1, 0
  {
    AlternativeBelongs(schema, subs[i], root, py);
    Satisfies(value, subs[i], root, py)
  }

  /** Every required name is present, every extra property is allowed, and every property
      satisfies the schema that applies to it. */
  ghost predicate SatisfiesObject(value: Json, schema: Json, root: Json, py: Python)
    requires Belongs(schema, root, py) && value.Obj?
    decreases Size(value), Height(schema, root, py), Size(schema), 2
  {
    var d := schema.fields;
    && (forall i :: 0 <= i < |ListAt(d, "required")| ==>
          ListAt(d, "required")[i].Str? && Has(value.fields, ListAt(d, "required")[i].s))
    && (forall name :: name in Keys(value.fields) ==> SatisfiesProperty(value, name, schema, root, py))
  }

  ghost predicate SatisfiesProperty(value: Json, name: string, schema: Json, root: Json, py: Python)
    requires Belongs(schema, root, py) && value.Obj? && Has(value.fields, name)
    decreases Size(value), Height(schema, root, py), Size(schema), 1
  {
    var d := schema.fields;
    GetSmaller(value.fields, name);
    if Has(DictAt(d, "properties"), name) then
      PropertyBelongs(schema, name, root, py);
      Satisfies(Get(value.fields, name).value, Get(DictAt(d, "properties"), name).value, root, py)
    else
      match Get(d, "additionalProperties")
      case Some(Bool(allowed)) => allowed
      case Some(Obj(fields)) =>
        AdditionalBelongs(schema, root, py);
        Satisfies(Get(value.fields, name).value, Obj(fields), root, py)
      case _ => true
  }

  ghost predicate SatisfiesItem(value: Json, i: nat, schema: Json, root: Json, py: Python)
    requires Belongs(schema, root, py) && value.Arr? && i < |value.items| && Has(schema.fields, "items")
    decreases Size(value), Height(schema, root, py), Size(schema), 1
  {
    ItemsBelongs(schema, root, py);
    ItemSmaller(value.items, i);
    Satisfies(value.items[i], Get(schema.fields, "items").value, root, py)
  }

  // ---- the two agree ----

  /** A verdict, when there is one, is clean exactly when the claim holds. */
  ghost predicate Agrees(outcome: Outcome, claim: bool)
  {
    outcome.Found? ==> (outcome == CLEAN <==> claim)
  }

  lemma {:induction false} RepeatsMeansRepeats(items: seq<Json>, location: Location)
    requires forall i :: 0 <= i < |items| ==> WellFormed(items[i])
    ensures Repeats(items, location) == [] <==> NoRepeats(items)
  {
    if items != [] {
      var front, last := items[..|items| - 1], items[|items| - 1];
      assert items == front + [last];
      RepeatsMeansRepeats(front, location);
      RepeatsGrow(front, last, location);
      CanonicalMember(front, last);
      NoRepeatsGrows(front, last);
    }
  }

  lemma RepeatsGrow(front: seq<Json>, last: Json, location: Location)
    ensures Repeats(front + [last], location) == [] <==>
              Repeats(front, location) == [] && Canonical(last) !in CanonicalItems(front)
  {
  }

  lemma CanonicalMember(items: seq<Json>, other: Json)
    requires WellFormed(other) && forall i :: 0 <= i < |items| ==> WellFormed(items[i])
    ensures Canonical(other) in CanonicalItems(items) <==> exists i :: 0 <= i < |items| && Equal(items[i], other)
  {
    forall i | 0 <= i < |items| ensures CanonicalItems(items)[i] == Canonical(other) <==> Equal(items[i], other) {
      CanonicalIffEqual(items[i], other);
    }
  }

  lemma NoRepeatsGrows(front: seq<Json>, last: Json)
    ensures NoRepeats(front + [last]) <==>
              NoRepeats(front) && !exists i :: 0 <= i < |front| && Equal(front[i], last)
  {
    var items := front + [last];
    assert forall i :: 0 <= i < |front| ==> items[i] == front[i];
    if NoRepeats(items) {
      forall i | 0 <= i < |front| ensures !Equal(front[i], last) {
        assert !Equal(items[i], items[|front|]);
      }
    }
  }

  lemma ListedAgrees(value: Json, d: Dict, location: Location)
    requires WellFormed(value) && WellFormed(Obj(d))
    requires Has(d, "enum") ==> Get(d, "enum").value.Arr?
    ensures EnumFault(value, d, location) == CLEAN && ConstFault(value, d, location) == CLEAN <==> ListedOk(value, d)
  {
    var options := ListAt(d, "enum");
    forall i | 0 <= i < |options| ensures Canonical(value) == CanonicalItems(options)[i] <==> Equal(value, options[i]) {
      ListAtInside(d, "enum");
      assert options[i] in options;
      CanonicalIffEqual(value, options[i]);
    }
    if Has(d, "const") {
      GetIsDoc(d, "const");
      CanonicalIffEqual(value, Get(d, "const").value);
    }
  }

  lemma TypeAgrees(value: Json, d: Dict)
    ensures WrongType(value, d) <==> !TypeHolds(value, d)
  {
  }

  predicate NumberIfAny(d: Dict, key: string)
  {
    Has(d, key) ==> Get(d, key).value.Int? || Get(d, key).value.Float?
  }

  /** The bounds of a schema are numbers. */
  predicate BoundsAreNumbers(d: Dict)
  {
    && NumberIfAny(d, "minimum") && NumberIfAny(d, "maximum")
    && NumberIfAny(d, "exclusiveMinimum") && NumberIfAny(d, "exclusiveMaximum")
  }

  // ---- what the gate makes sure of ----

  predicate CountIfAny(d: Dict, key: string)
  {
    Has(d, key) ==> Get(d, key).value.Int? && Get(d, key).value.i >= 0
  }

  predicate StringIfAny(d: Dict, key: string)
  {
    Has(d, key) ==> Get(d, key).value.Str?
  }

  predicate ListIfAny(d: Dict, key: string)
  {
    Has(d, key) ==> Get(d, key).value.Arr?
  }

  predicate ObjectIfAny(d: Dict, key: string)
  {
    Has(d, key) ==> Get(d, key).value.Obj?
  }

  predicate SchemasIfAny(d: Dict, key: string)
  {
    Has(d, key) ==>
      && Get(d, key).value.Arr? && Get(d, key).value.items != []
      && forall i :: 0 <= i < |Get(d, key).value.items| ==> Get(d, key).value.items[i].Obj?
  }

  predicate BoundsAreCounts(d: Dict)
  {
    CountIfAny(d, "minLength") && CountIfAny(d, "maxLength") && CountIfAny(d, "minItems") && CountIfAny(d, "maxItems")
  }

  predicate ChoicesAreSchemas(d: Dict)
  {
    SchemasIfAny(d, "anyOf") && SchemasIfAny(d, "oneOf") && SchemasIfAny(d, "allOf")
  }

  predicate TextsAreTexts(d: Dict, py: Python)
  {
    && StringIfAny(d, "type") && StringIfAny(d, "$ref") && StringIfAny(d, "pattern")
    && (Has(d, "pattern") ==> py.compiles(Get(d, "pattern").value.s))
  }

  predicate HoldersHold(d: Dict)
  {
    && ListIfAny(d, "required") && ListIfAny(d, "enum")
    && ObjectIfAny(d, "properties") && ObjectIfAny(d, "items")
    && ObjectIfAny(d, "$defs") && ObjectIfAny(d, "definitions")
  }

  predicate FlagsAreFlags(d: Dict)
  {
    && (Has(d, "uniqueItems") ==> Get(d, "uniqueItems").value.Bool?)
    && (Has(d, "additionalProperties") ==>
          Get(d, "additionalProperties").value.Bool? || Get(d, "additionalProperties").value.Obj?)
  }

  /** Every keyword that is there has a value its meaning is about, so that none is silently
      skipped. */
  predicate Enforced(d: Dict, py: Python)
  {
    && TextsAreTexts(d, py) && HoldersHold(d) && FlagsAreFlags(d)
    && BoundsAreNumbers(d) && BoundsAreCounts(d) && ChoicesAreSchemas(d)
  }

  /** The keywords this validator enforces, and those that say nothing about a value. */
  predicate Understood(key: string)
  {
    || key in ["type", "enum", "const", "minLength", "maxLength", "pattern"]
    || key in ["minimum", "maximum", "exclusiveMinimum", "exclusiveMaximum"]
    || key in ["minItems", "maxItems", "uniqueItems", "items", "properties", "required", "additionalProperties"]
    || key in ["anyOf", "oneOf", "allOf", "$ref", "$defs", "definitions"]
    || key in ["title", "description", "default", "$schema"]
  }

  lemma ShapeIsOk(d: Dict, key: string, py: Python)
    requires KeywordsOk(d, py) && Has(d, key)
    ensures key in SUPPORTED && ShapeOk(key, Get(d, key).value, py)
  {
    var i :| 0 <= i < |d| && d[i] == Entry(key, Get(d, key).value);
    hide ShapeOk;
  }

  lemma BoundsMean(d: Dict, py: Python)
    requires KeywordsOk(d, py)
    ensures BoundsAreNumbers(d)
  {
    hide KeywordsOk;
    if Has(d, "minimum") { ShapeIsOk(d, "minimum", py); }
    if Has(d, "maximum") { ShapeIsOk(d, "maximum", py); }
    if Has(d, "exclusiveMinimum") { ShapeIsOk(d, "exclusiveMinimum", py); }
    if Has(d, "exclusiveMaximum") { ShapeIsOk(d, "exclusiveMaximum", py); }
  }

  lemma CountsMean(d: Dict, py: Python)
    requires KeywordsOk(d, py)
    ensures BoundsAreCounts(d)
  {
    hide KeywordsOk;
    if Has(d, "minLength") { ShapeIsOk(d, "minLength", py); }
    if Has(d, "maxLength") { ShapeIsOk(d, "maxLength", py); }
    if Has(d, "minItems") { ShapeIsOk(d, "minItems", py); }
    if Has(d, "maxItems") { ShapeIsOk(d, "maxItems", py); }
  }

  lemma ChoicesMean(d: Dict, py: Python)
    requires KeywordsOk(d, py)
    ensures ChoicesAreSchemas(d)
  {
    hide KeywordsOk;
    if Has(d, "anyOf") { ShapeIsOk(d, "anyOf", py); }
    if Has(d, "oneOf") { ShapeIsOk(d, "oneOf", py); }
    if Has(d, "allOf") { ShapeIsOk(d, "allOf", py); }
  }

  lemma TextsMean(d: Dict, py: Python)
    requires KeywordsOk(d, py)
    ensures TextsAreTexts(d, py) && FlagsAreFlags(d)
  {
    hide KeywordsOk;
    if Has(d, "type") { ShapeIsOk(d, "type", py); }
    if Has(d, "$ref") { ShapeIsOk(d, "$ref", py); }
    if Has(d, "pattern") { ShapeIsOk(d, "pattern", py); }
    if Has(d, "uniqueItems") { ShapeIsOk(d, "uniqueItems", py); }
    if Has(d, "additionalProperties") { ShapeIsOk(d, "additionalProperties", py); }
  }

  lemma HoldersMean(d: Dict, py: Python)
    requires KeywordsOk(d, py)
    ensures HoldersHold(d)
  {
    hide KeywordsOk;
    if Has(d, "required") { ShapeIsOk(d, "required", py); }
    if Has(d, "enum") { ShapeIsOk(d, "enum", py); }
    if Has(d, "properties") { ShapeIsOk(d, "properties", py); }
    if Has(d, "items") { ShapeIsOk(d, "items", py); }
    if Has(d, "$defs") { ShapeIsOk(d, "$defs", py); }
    if Has(d, "definitions") { ShapeIsOk(d, "definitions", py); }
  }

  lemma EnforcedShape(d: Dict, key: string, py: Python)
    requires Enforced(d, py) && Has(d, key)
    ensures ShapeOk(key, Get(d, key).value, py)
  {
    hide Get;
    hide Has;
  }

  /** The gate passes a schema's keywords exactly when it understands them all and can enforce
      each. */
  lemma KeywordsOkMeans(d: Dict, py: Python)
    requires DistinctKeys(d)
    ensures KeywordsOk(d, py) <==> Enforced(d, py) && forall key :: Has(d, key) ==> Understood(key)
  {
    forall key ensures key in SUPPORTED <==> Understood(key) { SupportedIsUnderstood(key); }
    hide Understood;
    hide SUPPORTED;
    hide ShapeOk;
    if KeywordsOk(d, py) {
      TextsMean(d, py);
      HoldersMean(d, py);
      CountsMean(d, py);
      ChoicesMean(d, py);
      BoundsMean(d, py);
      forall key | Has(d, key) ensures Understood(key) { ShapeIsOk(d, key, py); }
    }
    hide BoundsAreNumbers;
    hide BoundsAreCounts;
    hide ChoicesAreSchemas;
    hide HoldersHold;
    hide TextsAreTexts;
    hide FlagsAreFlags;
    if Enforced(d, py) && forall key :: Has(d, key) ==> Understood(key) {
      forall i | 0 <= i < |d| ensures d[i].key in SUPPORTED && ShapeOk(d[i].key, d[i].value, py) {
        assert Has(d, d[i].key);
        GetDistinct(d, i);
        EnforcedShape(d, d[i].key, py);
      }
    }
  }

  /** An accepted schema is enforced whole, and its reference refers to something. */
  lemma AcceptedIsEnforced(schema: Json, root: Json, py: Python)
    requires Belongs(schema, root, py) && DistinctKeys(schema.fields)
    ensures Enforced(schema.fields, py) && forall key :: Has(schema.fields, key) ==> Understood(key)
    ensures Has(schema.fields, "$ref") ==> exists target :: Cites(schema, target, root, py)
  {
    hide Enforced;
    hide Understood;
    KeywordsOkMeans(schema.fields, py);
    TextsMean(schema.fields, py);
    if Has(schema.fields, "$ref") {
      TargetIsLower(schema, root, py);
      hide Cites;
      CitesMeans(schema, Resolve(RefOf(schema), root, py).value, root, py);
    }
  }

  lemma SupportedIsUnderstood(key: string)
    ensures key in SUPPORTED <==> Understood(key)
  {
  }

  lemma NumbersAgree(value: Json, d: Dict, location: Location)
    requires BoundsAreNumbers(d) && (value.Int? || value.Float?)
    ensures NumberBounds(value, d, location) == CLEAN <==> NumberHolds(value, d)
  {
  }

  lemma BoundsAgree(value: Json, d: Dict, location: Location, py: Python)
    requires WellFormed(value) && BoundsAreNumbers(d)
    ensures Bounds(value, d, location, py) == CLEAN <==> BoundsHold(value, d, py)
  {
    if value.Int? || value.Float? { NumbersAgree(value, d, location); }
    hide NumberBounds;
    hide NumberHolds;
    if value.Arr? {
      forall i | 0 <= i < |value.items| ensures WellFormed(value.items[i]) { ItemIsDoc(value.items, i); }
      RepeatsMeansRepeats(value.items, location);
    }
  }

  /** The verdict of the validator is clean exactly when the value satisfies the schema. */
  lemma {:induction false} CleanMeansSatisfied(
    value: Json, schema: Json, location: Location, root: Json, py: Python)
    requires Belongs(schema, root, py) && WellFormed(value) && WellFormed(schema) && WellFormed(root)
    ensures Agrees(Validate(value, schema, location, root, py), Satisfies(value, schema, root, py))
    decreases Size(value), Height(schema, root, py), Size(schema), 3
  {
    hide Cites;
    ReferenceAgrees(value, schema, location, root, py);
    TypeAgrees(value, schema.fields);
    if TypeHolds(value, schema.fields) {
      CheckedEnum(schema, root, py);
      BoundsMean(schema.fields, py);
      ListedAgrees(value, schema.fields, location);
      BoundsAgree(value, schema.fields, location, py);
      CompositionAgrees(value, schema, location, root, py);
      ObjectAgrees(value, schema, location, root, py);
      ItemsAgree(value, schema, location, root, py);
    }
  }

  lemma CheckedEnum(schema: Json, root: Json, py: Python)
    requires Belongs(schema, root, py)
    ensures Has(schema.fields, "enum") ==> Get(schema.fields, "enum").value.Arr?
    ensures Has(schema.fields, "anyOf") ==> Get(schema.fields, "anyOf").value.Arr?
    ensures Has(schema.fields, "oneOf") ==> Get(schema.fields, "oneOf").value.Arr?
  {
  }

  lemma {:induction false} ReferenceAgrees(value: Json, schema: Json, location: Location, root: Json, py: Python)
    requires Belongs(schema, root, py) && WellFormed(value) && WellFormed(schema) && WellFormed(root)
    ensures Agrees(
              ValidateReference(value, schema, location, root, py),
              forall target :: Cites(schema, target, root, py) ==>
                (CitedIsLower(schema, target, root, py); Satisfies(value, target, root, py)))
    decreases Size(value), Height(schema, root, py), Size(schema), 0
  {
    hide Cites;
    forall target ensures Cites(schema, target, root, py)
                          <==> HasRef(schema) && Resolve(RefOf(schema), root, py) == Some(target) {
      CitesMeans(schema, target, root, py);
    }
    if HasRef(schema) {
      TargetIsLower(schema, root, py);
      CleanMeansSatisfied(value, Resolve(RefOf(schema), root, py).value, location, root, py);
    }
  }

  lemma {:induction false} OutcomesAgree(
    value: Json, schema: Json, subs: seq<Json>, i: nat, location: Location, root: Json, py: Python)
    requires Belongs(schema, root, py) && WellFormed(value) && WellFormed(schema) && WellFormed(root)
    requires i < |subs| && AreAlternatives(subs, schema.fields)
    ensures Agrees(Outcomes(value, schema, subs, location, root, py)[i],
                   SatisfiesOne(value, schema, subs, i, root, py))
    decreases Size(value), Height(schema, root, py), Size(schema), 0, i
  {
    AlternativeBelongs(schema, subs[i], root, py);
    AlternativeIsDoc(schema, subs[i]);
    CleanMeansSatisfied(value, subs[i], location, root, py);
  }

  lemma AlternativeIsDoc(schema: Json, sub: Json)
    requires schema.Obj? && sub in Alternatives(schema.fields)
    ensures Docs(sub) <= Docs(schema)
  {
    AlternativesInside(schema.fields);
    var i :| 0 <= i < |Alternatives(schema.fields)| && Alternatives(schema.fields)[i] == sub;
    assert Inside(sub, schema.fields);
  }

  ghost predicate OnlyClean(outcomes: seq<Outcome>, i: nat)
  {
    forall j :: 0 <= j < |outcomes| ==> (outcomes[j] == CLEAN <==> j == i)
  }

  /** Counting clean outcomes: one exactly when a single alternative is met. */
  lemma {:induction false} MatchedOnce(outcomes: seq<Outcome>)
    ensures Matched(outcomes) == 1 <==> exists i :: 0 <= i < |outcomes| && OnlyClean(outcomes, i)
  {
    if outcomes != [] {
      var rest := outcomes[1..];
      assert outcomes == [outcomes[0]] + rest;
      MatchedOnce(rest);
      if Matched(outcomes) == 1 {
        if outcomes[0] == CLEAN {
          assert CLEAN !in rest;
          assert OnlyClean(outcomes, 0);
        } else {
          var i :| 0 <= i < |rest| && OnlyClean(rest, i);
          assert OnlyClean(outcomes, i + 1);
        }
      }
      if i :| 0 <= i < |outcomes| && OnlyClean(outcomes, i) {
        OnlyCleanRest(outcomes, i);
      }
    }
  }

  lemma OnlyCleanRest(outcomes: seq<Outcome>, i: nat)
    requires i < |outcomes| && OnlyClean(outcomes, i)
    ensures i == 0 ==> CLEAN !in outcomes[1..]
    ensures i > 0 ==> outcomes[0] != CLEAN && OnlyClean(outcomes[1..], i - 1)
  {
  }

  lemma {:induction false} CompositionAgrees(value: Json, schema: Json, location: Location, root: Json, py: Python)
    requires Belongs(schema, root, py) && WellFormed(value) && WellFormed(schema) && WellFormed(root)
    ensures Agrees(Composition(value, schema, location, root, py), SatisfiesAlternatives(value, schema, root, py))
    decreases Size(value), Height(schema, root, py), Size(schema), 2
  {
    AllOfAgrees(value, schema, location, root, py);
    AnyOfAgrees(value, schema, location, root, py);
    OneOfAgrees(value, schema, location, root, py);
  }

  lemma {:induction false} AllOfAgrees(value: Json, schema: Json, location: Location, root: Json, py: Python)
    requires Belongs(schema, root, py) && WellFormed(value) && WellFormed(schema) && WellFormed(root)
    ensures Agrees(
              JoinAll(Outcomes(value, schema, ListAt(schema.fields, "allOf"), location, root, py)),
              forall i :: 0 <= i < |ListAt(schema.fields, "allOf")| ==>
                SatisfiesOne(value, schema, ListAt(schema.fields, "allOf"), i, root, py))
    decreases Size(value), Height(schema, root, py), Size(schema), 1
  {
    var subs := ListAt(schema.fields, "allOf");
    forall i | 0 <= i < |subs|
      ensures Agrees(Outcomes(value, schema, subs, location, root, py)[i],
                     SatisfiesOne(value, schema, subs, i, root, py))
    {
      OutcomesAgree(value, schema, subs, i, location, root, py);
    }
  }

  lemma {:induction false} AnyOfAgrees(value: Json, schema: Json, location: Location, root: Json, py: Python)
    requires Belongs(schema, root, py) && WellFormed(value) && WellFormed(schema) && WellFormed(root)
    ensures Agrees(
              AnyOfFault(Outcomes(value, schema, ListAt(schema.fields, "anyOf"), location, root, py), location),
              exists i :: 0 <= i < |ListAt(schema.fields, "anyOf")| &&
                SatisfiesOne(value, schema, ListAt(schema.fields, "anyOf"), i, root, py))
    decreases Size(value), Height(schema, root, py), Size(schema), 1
  {
    var subs := ListAt(schema.fields, "anyOf");
    forall i | 0 <= i < |subs|
      ensures Agrees(Outcomes(value, schema, subs, location, root, py)[i],
                     SatisfiesOne(value, schema, subs, i, root, py))
    {
      OutcomesAgree(value, schema, subs, i, location, root, py);
    }
  }

  lemma {:induction false} OneOfAgrees(value: Json, schema: Json, location: Location, root: Json, py: Python)
    requires Belongs(schema, root, py) && WellFormed(value) && WellFormed(schema) && WellFormed(root)
    ensures Agrees(
              OneOfFault(Outcomes(value, schema, ListAt(schema.fields, "oneOf"), location, root, py), location),
              exists i :: 0 <= i < |ListAt(schema.fields, "oneOf")| &&
                SatisfiesOnly(value, schema, ListAt(schema.fields, "oneOf"), i, root, py))
    decreases Size(value), Height(schema, root, py), Size(schema), 1
  {
    var subs := ListAt(schema.fields, "oneOf");
    var outcomes := Outcomes(value, schema, subs, location, root, py);
    forall i | 0 <= i < |subs| ensures Agrees(outcomes[i], SatisfiesOne(value, schema, subs, i, root, py)) {
      OutcomesAgree(value, schema, subs, i, location, root, py);
    }
    OneOfMeans(value, schema, subs, outcomes, location, root, py);
  }

  lemma OneOfMeans(
    value: Json, schema: Json, subs: seq<Json>, outcomes: seq<Outcome>, location: Location, root: Json, py: Python)
    requires Belongs(schema, root, py) && AreAlternatives(subs, schema.fields) && |outcomes| == |subs|
    requires forall i :: 0 <= i < |subs| ==> Agrees(outcomes[i], SatisfiesOne(value, schema, subs, i, root, py))
    ensures Agrees(OneOfFault(outcomes, location),
                   exists i :: 0 <= i < |subs| && SatisfiesOnly(value, schema, subs, i, root, py))
  {
    if OneOfFault(outcomes, location).Found? {
      MatchedOnce(outcomes);
      forall i | 0 <= i < |subs|
        ensures OnlyClean(outcomes, i) <==> SatisfiesOnly(value, schema, subs, i, root, py)
      {
      }
    }
  }

  lemma {:induction false} ItemsAgree(value: Json, schema: Json, location: Location, root: Json, py: Python)
    requires Belongs(schema, root, py) && WellFormed(value) && WellFormed(schema) && WellFormed(root)
    ensures Agrees(
              ValidateItems(value, schema, location, root, py),
              value.Arr? && Has(schema.fields, "items") ==>
                forall i :: 0 <= i < |value.items| ==> SatisfiesItem(value, i, schema, root, py))
    decreases Size(value), Height(schema, root, py), Size(schema), 1
  {
    if value.Arr? && Has(schema.fields, "items") {
      var parts := seq(|value.items|, i requires 0 <= i < |value.items| =>
        ValidateItem(value, i, schema, location, root, py));
      assert ValidateItems(value, schema, location, root, py) == JoinAll(parts);
      forall i | 0 <= i < |parts| ensures Agrees(parts[i], SatisfiesItem(value, i, schema, root, py)) {
        ItemsBelongs(schema, root, py);
        ItemSmaller(value.items, i);
        ItemIsDoc(value.items, i);
        GetIsDoc(schema.fields, "items");
        CleanMeansSatisfied(
          value.items[i], Get(schema.fields, "items").value, location + [Index(i)], root, py);
      }
    }
  }

  lemma {:induction false} ObjectAgrees(value: Json, schema: Json, location: Location, root: Json, py: Python)
    requires Belongs(schema, root, py) && WellFormed(value) && WellFormed(schema) && WellFormed(root)
    ensures Agrees(ValidateObject(value, schema, location, root, py),
                   value.Obj? ==> SatisfiesObject(value, schema, root, py))
    decreases Size(value), Height(schema, root, py), Size(schema), 2
  {
    if value.Obj? && ValidateObject(value, schema, location, root, py).Found? {
      RequiredAgrees(ListAt(schema.fields, "required"), value.fields, location);
      PropertiesAgree(value, schema, location, root, py);
    }
  }

  lemma RequiredAgrees(names: seq<Json>, fields: Dict, location: Location)
    ensures Agrees(RequiredFaults(names, fields, location),
                   forall i :: 0 <= i < |names| ==> names[i].Str? && Has(fields, names[i].s))
  {
    var parts := seq(|names|, i requires 0 <= i < |names| => RequiredFault(names[i], fields, location));
    assert RequiredFaults(names, fields, location) == JoinAll(parts);
    assert forall i :: 0 <= i < |names| ==> parts[i] == RequiredFault(names[i], fields, location);
  }

  /** Every property of the value is checked once: by name, or as an extra one. */
  lemma {:induction false} PropertiesAgree(value: Json, schema: Json, location: Location, root: Json, py: Python)
    requires Belongs(schema, root, py) && WellFormed(value) && WellFormed(schema) && WellFormed(root)
    requires value.Obj?
    requires JoinAll(ExtraOutcomes(value, schema, location, root, py)).Found?
    requires JoinAll(NamedOutcomes(value, schema, location, root, py)).Found?
    ensures && JoinAll(ExtraOutcomes(value, schema, location, root, py)) == CLEAN
            && JoinAll(NamedOutcomes(value, schema, location, root, py)) == CLEAN
            <==> forall name :: name in Keys(value.fields) ==> SatisfiesProperty(value, name, schema, root, py)
    decreases Size(value), Height(schema, root, py), Size(schema), 1
  {
    var named := DictAt(schema.fields, "properties");
    var extras := ExtraOutcomes(value, schema, location, root, py);
    var knowns := NamedOutcomes(value, schema, location, root, py);
    forall i | 0 <= i < |extras|
      ensures Has(value.fields, value.fields[i].key)
      ensures extras[i] == CLEAN <==>
                (!Has(named, value.fields[i].key) ==> SatisfiesProperty(value, value.fields[i].key, schema, root, py))
    {
      assert value.fields[i].key in Keys(value.fields);
      ExtraAgrees(value, value.fields[i].key, schema, location, root, py);
    }
    forall i | 0 <= i < |knowns|
      ensures Has(named, named[i].key)
      ensures knowns[i] == CLEAN <==>
                (Has(value.fields, named[i].key) ==> SatisfiesProperty(value, named[i].key, schema, root, py))
    {
      assert named[i].key in Keys(named);
      NamedAgrees(value, named[i].key, schema, location, root, py);
    }
    if JoinAll(extras) == CLEAN && JoinAll(knowns) == CLEAN {
      forall name | name in Keys(value.fields) ensures SatisfiesProperty(value, name, schema, root, py) {
        if Has(named, name) {
          var i :| 0 <= i < |named| && named[i].key == name;
          assert knowns[i] == CLEAN;
        } else {
          var i :| 0 <= i < |value.fields| && value.fields[i].key == name;
          assert extras[i] == CLEAN;
        }
      }
    }
  }

  lemma {:induction false} ExtraAgrees(
    value: Json, name: string, schema: Json, location: Location, root: Json, py: Python)
    requires Belongs(schema, root, py) && WellFormed(value) && WellFormed(schema) && WellFormed(root)
    requires value.Obj? && Has(value.fields, name)
    ensures Agrees(ValidateExtra(value, name, schema, location, root, py),
                   !Has(DictAt(schema.fields, "properties"), name) ==>
                     SatisfiesProperty(value, name, schema, root, py))
    decreases Size(value), Height(schema, root, py), Size(schema), 0
  {
    var d := schema.fields;
    if !Has(DictAt(d, "properties"), name) && AdditionalSchema(d).Some? {
      AdditionalBelongs(schema, root, py);
      GetSmaller(value.fields, name);
      GetIsDoc(value.fields, name);
      GetIsDoc(d, "additionalProperties");
      CleanMeansSatisfied(
        Get(value.fields, name).value, AdditionalSchema(d).value, location + [Key(name)], root, py);
    }
  }

  lemma {:induction false} NamedAgrees(
    value: Json, name: string, schema: Json, location: Location, root: Json, py: Python)
    requires Belongs(schema, root, py) && WellFormed(value) && WellFormed(schema) && WellFormed(root)
    requires value.Obj? && Has(DictAt(schema.fields, "properties"), name)
    ensures Agrees(ValidateNamed(value, name, schema, location, root, py),
                   Has(value.fields, name) ==> SatisfiesProperty(value, name, schema, root, py))
    decreases Size(value), Height(schema, root, py), Size(schema), 0
  {
    if Has(value.fields, name) {
      var props := DictAt(schema.fields, "properties");
      PropertyBelongs(schema, name, root, py);
      GetSmaller(value.fields, name);
      GetIsDoc(value.fields, name);
      GetIsDoc(schema.fields, "properties");
      GetIsDoc(props, name);
      DocsTransitive(Obj(props), schema);
      CleanMeansSatisfied(
        Get(value.fields, name).value, Get(props, name).value, location + [Key(name)], root, py);
    }
  }

  // ---- where errors point ----

  /** The location names a place inside the value. */
  ghost predicate Reaches(value: Json, path: Location)
    decreases |path|
  {
    path == []
    || (path[0].Key? && value.Obj? && Has(value.fields, path[0].key)
        && Reaches(Get(value.fields, path[0].key).value, path[1..]))
    || (path[0].Index? && value.Arr? && path[0].index < |value.items|
        && Reaches(value.items[path[0].index], path[1..]))
  }

  /** The error lies at or below location, at a place the value has. */
  ghost predicate At(e: SchemaError, value: Json, location: Location)
  {
    location <= e.location && Reaches(value, e.location[|location|..])
  }

  ghost predicate Located(outcome: Outcome, value: Json, location: Location)
  {
    outcome.Found? ==> forall e :: e in outcome.errors ==> At(e, value, location)
  }

  lemma LocatedHere(outcome: Outcome, value: Json, location: Location)
    requires outcome.Found? ==> forall e :: e in outcome.errors ==> e.location == location
    ensures Located(outcome, value, location)
  {
  }

  lemma LocatedBelow(outcome: Outcome, value: Json, child: Json, step: Step, location: Location)
    requires Located(outcome, child, location + [step])
    requires (step.Key? && value.Obj? && Has(value.fields, step.key) && child == Get(value.fields, step.key).value)
          || (step.Index? && value.Arr? && step.index < |value.items| && child == value.items[step.index])
    ensures Located(outcome, value, location)
  {
  }

  lemma LocatedJoin(a: Outcome, b: Outcome, value: Json, location: Location)
    requires Located(a, value, location) && Located(b, value, location)
    ensures Located(Join(a, b), value, location)
  {
  }

  lemma RepeatsHere(items: seq<Json>, location: Location)
    ensures forall e :: e in Repeats(items, location) ==> e.location == location
  {
  }

  lemma ListedLocated(value: Json, d: Dict, location: Location)
    ensures Located(Join(EnumFault(value, d, location), ConstFault(value, d, location)), value, location)
  {
  }

  lemma BoundsLocated(value: Json, d: Dict, location: Location, py: Python)
    ensures Located(Bounds(value, d, location, py), value, location)
  {
    LocatedHere(StringBounds(value, d, location, py), value, location);
    LocatedHere(NumberBounds(value, d, location), value, location);
    if value.Arr? { RepeatsHere(value.items, location); }
    LocatedHere(ArrayBounds(value, d, location), value, location);
  }

  /** Every error a validation reports points at a place that exists in the value. */
  lemma {:induction false} ErrorsAreLocated(
    value: Json, schema: Json, location: Location, root: Json, py: Python)
    requires Belongs(schema, root, py)
    ensures Located(Validate(value, schema, location, root, py), value, location)
    decreases Size(value), Height(schema, root, py), Size(schema), 3
  {
    hide Composition;
    hide ValidateObject;
    hide ValidateItems;
    hide ValidateReference;
    hide Bounds;
    hide EnumFault;
    hide ConstFault;
    hide Located;
    var d := schema.fields;
    var followed := ValidateReference(value, schema, location, root, py);
    ReferenceLocated(value, schema, location, root, py);
    if WrongType(value, d) {
      LocatedHere(Fault(true, "type", location), value, location);
      LocatedJoin(followed, Fault(true, "type", location), value, location);
    } else {
      ListedLocated(value, d, location);
      BoundsLocated(value, d, location, py);
      CompositionLocated(value, schema, location, root, py);
      ObjectLocated(value, schema, location, root, py);
      ItemsLocated(value, schema, location, root, py);
      PartsLocated(
        followed, Join(EnumFault(value, d, location), ConstFault(value, d, location)),
        Composition(value, schema, location, root, py), Bounds(value, d, location, py),
        ValidateObject(value, schema, location, root, py), ValidateItems(value, schema, location, root, py),
        value, location);
    }
  }

  lemma {:induction false} ReferenceLocated(value: Json, schema: Json, location: Location, root: Json, py: Python)
    requires Belongs(schema, root, py)
    ensures Located(ValidateReference(value, schema, location, root, py), value, location)
    decreases Size(value), Height(schema, root, py), Size(schema), 0
  {
    if HasRef(schema) {
      TargetIsLower(schema, root, py);
      ErrorsAreLocated(value, Resolve(RefOf(schema), root, py).value, location, root, py);
    }
  }

  lemma PartsLocated(
    a: Outcome, b: Outcome, c: Outcome, d: Outcome, e: Outcome, f: Outcome, value: Json, location: Location)
    requires Located(a, value, location) && Located(b, value, location) && Located(c, value, location)
    requires Located(d, value, location) && Located(e, value, location) && Located(f, value, location)
    ensures Located(Join(Join(a, b), Join(Join(c, d), Join(e, f))), value, location)
  {
  }

  lemma {:induction false} CompositionLocated(
    value: Json, schema: Json, location: Location, root: Json, py: Python)
    requires Belongs(schema, root, py)
    ensures Located(Composition(value, schema, location, root, py), value, location)
    decreases Size(value), Height(schema, root, py), Size(schema), 2
  {
    AllOfLocated(value, schema, location, root, py);
    ChoicesLocated(value, schema, location, root, py);
  }

  lemma ChoicesLocated(value: Json, schema: Json, location: Location, root: Json, py: Python)
    requires Belongs(schema, root, py)
    ensures Located(Choices(value, schema, location, root, py), value, location)
  {
  }

  lemma {:induction false} AllOfLocated(
    value: Json, schema: Json, location: Location, root: Json, py: Python)
    requires Belongs(schema, root, py)
    ensures Located(
              JoinAll(Outcomes(value, schema, ListAt(schema.fields, "allOf"), location, root, py)), value, location)
    decreases Size(value), Height(schema, root, py), Size(schema), 1
  {
    var subs := ListAt(schema.fields, "allOf");
    forall i | 0 <= i < |subs|
      ensures Located(Outcomes(value, schema, subs, location, root, py)[i], value, location)
    {
      AlternativeBelongs(schema, subs[i], root, py);
      ErrorsAreLocated(value, subs[i], location, root, py);
    }
  }

  lemma {:induction false} ItemsLocated(value: Json, schema: Json, location: Location, root: Json, py: Python)
    requires Belongs(schema, root, py)
    ensures Located(ValidateItems(value, schema, location, root, py), value, location)
    decreases Size(value), Height(schema, root, py), Size(schema), 2
  {
    if value.Arr? && Has(schema.fields, "items") {
      forall i | 0 <= i < |value.items|
        ensures Located(ValidateItem(value, i, schema, location, root, py), value, location)
      {
        ItemsBelongs(schema, root, py);
        ItemSmaller(value.items, i);
        ErrorsAreLocated(value.items[i], Get(schema.fields, "items").value, location + [Index(i)], root, py);
        LocatedBelow(
          ValidateItem(value, i, schema, location, root, py), value, value.items[i], Index(i), location);
      }
    }
  }

  lemma {:induction false} ObjectLocated(value: Json, schema: Json, location: Location, root: Json, py: Python)
    requires Belongs(schema, root, py)
    ensures Located(ValidateObject(value, schema, location, root, py), value, location)
    decreases Size(value), Height(schema, root, py), Size(schema), 2
  {
    if value.Obj? {
      var named := DictAt(schema.fields, "properties");
      LocatedHere(RequiredFaults(ListAt(schema.fields, "required"), value.fields, location), value, location);
      forall i | 0 <= i < |value.fields|
        ensures Located(ExtraOutcomes(value, schema, location, root, py)[i], value, location)
      {
        assert value.fields[i].key in Keys(value.fields);
        PropertyLocated(value, value.fields[i].key, schema, location, root, py);
      }
      forall i | 0 <= i < |named|
        ensures Located(NamedOutcomes(value, schema, location, root, py)[i], value, location)
      {
        assert named[i].key in Keys(named);
        PropertyLocated(value, named[i].key, schema, location, root, py);
      }
    }
  }

  lemma {:induction false} PropertyLocated(
    value: Json, name: string, schema: Json, location: Location, root: Json, py: Python)
    requires Belongs(schema, root, py) && value.Obj?
    ensures Has(value.fields, name) ==>
              Located(ValidateExtra(value, name, schema, location, root, py), value, location)
    ensures Has(DictAt(schema.fields, "properties"), name) ==>
              Located(ValidateNamed(value, name, schema, location, root, py), value, location)
    decreases Size(value), Height(schema, root, py), Size(schema), 1
  {
    var d := schema.fields;
    if Has(value.fields, name) {
      var child := Get(value.fields, name).value;
      GetSmaller(value.fields, name);
      if Has(DictAt(d, "properties"), name) {
        PropertyBelongs(schema, name, root, py);
        ErrorsAreLocated(child, Get(DictAt(d, "properties"), name).value, location + [Key(name)], root, py);
        LocatedBelow(ValidateNamed(value, name, schema, location, root, py), value, child, Key(name), location);
      } else if AdditionalForbidden(d) {
        LocatedHere(Fault(true, "unexpected_property", location), value, location);
      } else if AdditionalSchema(d).Some? {
        AdditionalBelongs(schema, root, py);
        ErrorsAreLocated(child, AdditionalSchema(d).value, location + [Key(name)], root, py);
        LocatedBelow(ValidateExtra(value, name, schema, location, root, py), value, child, Key(name), location);
      }
    }
  }
}
