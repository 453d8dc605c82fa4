/** Which errors a validation reports: exactly one code and place for each rule that is broken
    where the schema applies. */
module SchemaErrors {
  import opened Wrappers
  import opened Json
  import opened SchemaCheck
  import opened JsonPointer
  import opened RefCycles
  import opened Validator
  import opened SchemaMeaning

  /** The rules a schema can state, one for each error code. */
  datatype Rule =
    | TypeRule | EnumRule | ConstRule
    | MaxLength | MinLength | Pattern
    | Minimum | Maximum | ExclusiveMinimum | ExclusiveMaximum
    | MaxItems | MinItems | UniqueItems
    | Missing | Unexpected | AnyOf | OneOf

  function Code(rule: Rule): string
  {
    match rule
    case TypeRule => "type"
    case EnumRule => "enum"
    case ConstRule => "const"
    case MaxLength => "max_length"
    case MinLength => "min_length"
    case Pattern => "pattern"
    case Minimum => "minimum"
    case Maximum => "maximum"
    case ExclusiveMinimum => "exclusive_minimum"
    case ExclusiveMaximum => "exclusive_maximum"
    case MaxItems => "max_items"
    case MinItems => "min_items"
    case UniqueItems => "unique_items"
    case Missing => "missing"
    case Unexpected => "unexpected_property"
    case AnyOf => "any_of"
    case OneOf => "one_of"
  }

  lemma CodesDiffer(a: Rule, b: Rule)
    requires Code(a) == Code(b)
    ensures a == b
  {
    var s := Code(a);
    assert |s| > 2;
    assert s[0] == Code(b)[0] && s[1] == Code(b)[1] && s[|s| - 3] == Code(b)[|s| - 3];
  }

  // ---- what is reported, rule by rule ----

  predicate IsANumber(value: Json)
  {
    value.Int? || value.Float?
  }

  ghost predicate NoneListed(value: Json, d: Dict)
  {
    Has(d, "enum") && forall i :: 0 <= i < |ListAt(d, "enum")| ==> !Equal(value, ListAt(d, "enum")[i])
  }

  ghost predicate NotTheConst(value: Json, d: Dict)
  {
    Has(d, "const") && !Equal(value, Get(d, "const").value)
  }

  predicate IsUnder(value: Json, bound: Option<Json>)
  {
    IsANumber(value) && bound.Some? && Less(value, bound.value)
  }

  predicate IsOver(value: Json, bound: Option<Json>)
  {
    IsANumber(value) && bound.Some? && Less(bound.value, value)
  }

  predicate IsNotOver(value: Json, bound: Option<Json>)
  {
    IsANumber(value) && bound.Some? && LessOrSame(value, bound.value)
  }

  predicate IsNotUnder(value: Json, bound: Option<Json>)
  {
    IsANumber(value) && bound.Some? && LessOrSame(bound.value, value)
  }

  ghost predicate LacksSome(value: Json, names: seq<Json>)
  {
    value.Obj? && exists i :: 0 <= i < |names| && Lacks(value.fields, names[i])
  }

  ghost predicate HasForbidden(value: Json, d: Dict)
  {
    && value.Obj? && Get(d, "additionalProperties") == Some(Bool(false))
    && exists name :: Has(value.fields, name) && !Has(DictAt(d, "properties"), name)
  }

  ghost predicate MeetsNone(value: Json, schema: Json, root: Json, py: Python)
    requires Belongs(schema, root, py)
  {
    var subs := ListAt(schema.fields, "anyOf");
    Has(schema.fields, "anyOf") && forall i :: 0 <= i < |subs| ==> !SatisfiesOne(value, schema, subs, i, root, py)
  }

  ghost predicate MeetsNotOne(value: Json, schema: Json, root: Json, py: Python)
    requires Belongs(schema, root, py)
  {
    var subs := ListAt(schema.fields, "oneOf");
    Has(schema.fields, "oneOf") && forall i :: 0 <= i < |subs| ==> !SatisfiesOnly(value, schema, subs, i, root, py)
  }

  /** The schema states the rule, and the value breaks it: rules about what is listed, */
  ghost predicate BreaksListed(rule: Rule, value: Json, d: Dict)
  {
    (rule == EnumRule && NoneListed(value, d)) || (rule == ConstRule && NotTheConst(value, d))
  }

  /** about a string, */
  ghost predicate BreaksText(rule: Rule, value: Json, d: Dict, py: Python)
  {
    && value.Str?
    && (|| (rule == MaxLength && !NotOver(|value.s|, Get(d, "maxLength")))
        || (rule == MinLength && !NotUnder(|value.s|, Get(d, "minLength")))
        || (rule == Pattern && !Finds(value.s, Get(d, "pattern"), py)))
  }

  /** a number, */
  ghost predicate BreaksNumber(rule: Rule, value: Json, d: Dict)
  {
    || (rule == Minimum && IsUnder(value, Get(d, "minimum")))
    || (rule == Maximum && IsOver(value, Get(d, "maximum")))
    || (rule == ExclusiveMinimum && IsNotOver(value, Get(d, "exclusiveMinimum")))
    || (rule == ExclusiveMaximum && IsNotUnder(value, Get(d, "exclusiveMaximum")))
  }

  /** an array, */
  ghost predicate BreaksArray(rule: Rule, value: Json, d: Dict)
  {
    && value.Arr?
    && (|| (rule == MaxItems && !NotOver(|value.items|, Get(d, "maxItems")))
        || (rule == MinItems && !NotUnder(|value.items|, Get(d, "minItems")))
        || (rule == UniqueItems && Get(d, "uniqueItems") == Some(Bool(true)) && !NoRepeats(value.items)))
  }

  /** an object, */
  ghost predicate BreaksObject(rule: Rule, value: Json, d: Dict)
  {
    || (rule == Missing && LacksSome(value, ListAt(d, "required")))
    || (rule == Unexpected && HasForbidden(value, d))
  }

  /** or a choice of schemas. */
  ghost predicate BreaksChoice(rule: Rule, value: Json, schema: Json, root: Json, py: Python)
    requires Belongs(schema, root, py)
  {
    || (rule == AnyOf && MeetsNone(value, schema, root, py))
    || (rule == OneOf && MeetsNotOne(value, schema, root, py))
  }

  ghost predicate BreaksBound(rule: Rule, value: Json, d: Dict, py: Python)
  {
    BreaksText(rule, value, d, py) || BreaksNumber(rule, value, d) || BreaksArray(rule, value, d)
  }

  ghost predicate Breaks(rule: Rule, value: Json, schema: Json, root: Json, py: Python)
    requires Belongs(schema, root, py)
  {
    var d := schema.fields;
    || BreaksListed(rule, value, d) || BreaksBound(rule, value, d, py) || BreaksObject(rule, value, d)
    || BreaksChoice(rule, value, schema, root, py)
  }

  predicate Lacks(fields: Dict, name: Json)
  {
    !name.Str? || !Has(fields, name.s)
  }

  /** The rule is broken at the end of the path, by a schema that applies there: the schema
      itself, what it refers to, its allOf, or the schema of a property or an item on the way.
      Of a value of the wrong type nothing else is said. */
  ghost predicate Reported(value: Json, schema: Json, path: Location, rule: Rule, root: Json, py: Python)
    requires Belongs(schema, root, py)
    decreases Size(value), Height(schema, root, py), Size(schema), 2
  {
    || ReportedThrough(value, schema, path, rule, root, py)
    || (if TypeHolds(value, schema.fields) then
          || (path == [] && Breaks(rule, value, schema, root, py))
          || ReportedByAll(value, schema, path, rule, root, py)
          || (path != [] && path[0].Key? && ReportedAt(value, path[0].key, schema, path[1..], rule, root, py))
          || (path != [] && path[0].Index? && ReportedItem(value, path[0].index, schema, path[1..], rule, root, py))
        else path == [] && rule == TypeRule)
  }

  ghost predicate ReportedThrough(value: Json, schema: Json, path: Location, rule: Rule, root: Json, py: Python)
    requires Belongs(schema, root, py)
    decreases Size(value), Height(schema, root, py), Size(schema), 1
  {
    exists target ::
      && Cites(schema, target, root, py)
      && (CitedIsLower(schema, target, root, py); Reported(value, target, path, rule, root, py))
  }

  ghost predicate ReportedByAll(value: Json, schema: Json, path: Location, rule: Rule, root: Json, py: Python)
    requires Belongs(schema, root, py)
    decreases Size(value), Height(schema, root, py), Size(schema), 1
  {
    exists i: nat :: ReportedBy(value, schema, i, path, rule, root, py)
  }

  ghost predicate ReportedBy(
    value: Json, schema: Json, i: nat, path: Location, rule: Rule, root: Json, py: Python)
    requires Belongs(schema, root, py)
    decreases Size(value), Height(schema, root, py), Size(schema), 0
  {
    && i < |ListAt(schema.fields, "allOf")|
    && (AlternativeBelongs(schema, ListAt(schema.fields, "allOf")[i], root, py);
        Reported(value, ListAt(schema.fields, "allOf")[i], path, rule, root, py))
  }

  ghost predicate ReportedAt(
    value: Json, name: string, schema: Json, path: Location, rule: Rule, root: Json, py: Python)
    requires Belongs(schema, root, py)
    decreases Size(value), Height(schema, root, py), Size(schema), 0
  {
    && value.Obj? && Has(value.fields, name)
    && (GetSmaller(value.fields, name);
        var child := Get(value.fields, name).value;
        if Has(DictAt(schema.fields, "properties"), name) then
          PropertyBelongs(schema, name, root, py);
          Reported(child, Get(DictAt(schema.fields, "properties"), name).value, path, rule, root, py)
        else
          match Get(schema.fields, "additionalProperties")
          case Some(Obj(fields)) =>
            AdditionalBelongs(schema, root, py);
            Reported(child, Obj(fields), path, rule, root, py)
          case _ => false)
  }

  ghost predicate ReportedItem(
    value: Json, i: nat, schema: Json, path: Location, rule: Rule, root: Json, py: Python)
    requires Belongs(schema, root, py)
    decreases Size(value), Height(schema, root, py), Size(schema), 0
  {
    && value.Arr? && i < |value.items| && Has(schema.fields, "items")
    && (ItemsBelongs(schema, root, py);
        ItemSmaller(value.items, i);
        Reported(value.items[i], Get(schema.fields, "items").value, path, rule, root, py))
  }

  // ---- outcomes and one error ----

  /** A verdict, when there is one, holds the error exactly when the claim is true. */
  ghost predicate Tells(outcome: Outcome, e: SchemaError, claim: bool)
  {
    outcome.Found? ==> (e in outcome.errors <==> claim)
  }

  lemma JoinTells(a: Outcome, b: Outcome, e: SchemaError, p: bool, q: bool)
    requires Tells(a, e, p) && Tells(b, e, q)
    ensures Tells(Join(a, b), e, p || q)
  {
  }

  lemma {:induction false} JoinAllTells(parts: seq<Outcome>, e: SchemaError)
    ensures Tells(JoinAll(parts), e, exists i :: 0 <= i < |parts| && parts[i].Found? && e in parts[i].errors)
  {
    if parts != [] {
      var rest := parts[1..];
      assert parts == [parts[0]] + rest;
      JoinAllTells(rest, e);
      if JoinAll(parts).Found? && e in JoinAll(rest).errors {
        var i :| 0 <= i < |rest| && rest[i].Found? && e in rest[i].errors;
        assert parts[i + 1] == rest[i];
      }
      if i :| 0 <= i < |parts| && parts[i].Found? && e in parts[i].errors {
        if i > 0 { assert rest[i - 1] == parts[i]; }
      }
    }
  }

  /** A verdict made of parts holds the error exactly when some part does. */
  lemma SomeTells(parts: seq<Outcome>, e: SchemaError, claims: seq<bool>)
    requires |claims| == |parts| && forall i :: 0 <= i < |parts| ==> Tells(parts[i], e, claims[i])
    ensures Tells(JoinAll(parts), e, exists i :: 0 <= i < |claims| && claims[i])
  {
    JoinAllTells(parts, e);
    hide JoinAll;
    if JoinAll(parts).Found? {
      assert forall i :: 0 <= i < |parts| ==> parts[i].Found?;
      if i :| 0 <= i < |claims| && claims[i] { assert parts[i].Found? && e in parts[i].errors; }
    }
  }

  /** The error of a rule, at a place below location. */
  function Error(location: Location, path: Location, rule: Rule): SchemaError
  {
    SchemaError(Code(rule), location + path)
  }

  lemma FaultTells(failed: bool, r: Rule, location: Location, path: Location, rule: Rule)
    ensures Tells(Fault(failed, Code(r), location), Error(location, path, rule), failed && rule == r && path == [])
  {
    hide Code;
    if Code(rule) == Code(r) { CodesDiffer(rule, r); }
    assert location + path == location <==> path == [];
  }

  /** A child's error is the value's error one step further down. */
  lemma ErrorBelow(location: Location, step: Step, path: Location, rule: Rule)
    ensures Error(location + [step], path, rule) == Error(location, [step] + path, rule)
    ensures path != [] ==> Error(location, path, rule) == Error(location + [path[0]], path[1..], rule)
  {
    assert location + [step] + path == location + ([step] + path);
    if path != [] { assert location + path == location + [path[0]] + path[1..]; }
  }

  lemma PrefixStep(location: Location, step: Step, path: Location)
    ensures location + [step] <= location + path ==> path != [] && path[0] == step
  {
    if location + [step] <= location + path {
      assert (location + [step])[|location|] == (location + path)[|location|];
    }
  }

  /** An error elsewhere is not a child's. */
  lemma NotBelow(outcome: Outcome, child: Json, location: Location, step: Step, path: Location, rule: Rule)
    requires Located(outcome, child, location + [step]) && (path == [] || path[0] != step)
    ensures Tells(outcome, Error(location, path, rule), false)
  {
    PrefixStep(location, step, path);
  }

  // ---- the schema's own rules ----

  lemma ListedTells(value: Json, d: Dict, location: Location, path: Location, rule: Rule)
    requires WellFormed(value) && WellFormed(Obj(d)) && (Has(d, "enum") ==> Get(d, "enum").value.Arr?)
    ensures Tells(
              Join(EnumFault(value, d, location), ConstFault(value, d, location)), Error(location, path, rule),
              path == [] && BreaksListed(rule, value, d))
  {
    hide Tells;
    hide Join;
    hide Code;
    hide Fault;
    hide Error;
    hide EnumFault;
    hide ConstFault;
    hide NoneListed;
    hide NotTheConst;
    hide WellFormed;
    ListedFaults(value, d, location);
    FaultTells(NoneListed(value, d), EnumRule, location, path, rule);
    FaultTells(NotTheConst(value, d), ConstRule, location, path, rule);
    JoinTells(
      EnumFault(value, d, location), ConstFault(value, d, location), Error(location, path, rule),
      NoneListed(value, d) && rule == EnumRule && path == [], NotTheConst(value, d) && rule == ConstRule && path == []);
  }

  lemma ListedFaults(value: Json, d: Dict, location: Location)
    requires WellFormed(value) && WellFormed(Obj(d)) && (Has(d, "enum") ==> Get(d, "enum").value.Arr?)
    ensures EnumFault(value, d, location) == Fault(NoneListed(value, d), Code(EnumRule), location)
    ensures ConstFault(value, d, location) == Fault(NotTheConst(value, d), Code(ConstRule), location)
  {
    EnumMeans(value, d);
    hide Equal;
    hide Canonical;
    hide WellFormed;
    hide Fault;
  }

  lemma EnumMeans(value: Json, d: Dict)
    requires WellFormed(value) && WellFormed(Obj(d))
    requires Has(d, "enum") ==> Get(d, "enum").value.Arr?
    ensures Has(d, "enum") ==>
              (Canonical(value) in CanonicalItems(ListAt(d, "enum"))
               <==> exists i :: 0 <= i < |ListAt(d, "enum")| && Equal(value, ListAt(d, "enum")[i]))
    ensures Has(d, "const") ==>
              (Canonical(value) == Canonical(Get(d, "const").value) <==> Equal(value, Get(d, "const").value))
  {
    var options := ListAt(d, "enum");
    forall i | 0 <= i < |options| ensures Canonical(value) == CanonicalItems(options)[i] <==> Equal(value, options[i]) {
      ListAtInside(d, "enum");
      assert options[i] in options;
      CanonicalIffEqual(value, options[i]);
    }
    if Has(d, "const") {
      GetIsDoc(d, "const");
      CanonicalIffEqual(value, Get(d, "const").value);
    }
  }

  lemma StringCodes()
    ensures Code(MaxLength) == "max_length" && Code(MinLength) == "min_length" && Code(Pattern) == "pattern"
  {
  }

  lemma NumberCodes()
    ensures Code(Minimum) == "minimum" && Code(Maximum) == "maximum"
    ensures Code(ExclusiveMinimum) == "exclusive_minimum" && Code(ExclusiveMaximum) == "exclusive_maximum"
  {
  }

  lemma ArrayCodes()
    ensures Code(MaxItems) == "max_items" && Code(MinItems) == "min_items" && Code(UniqueItems) == "unique_items"
  {
  }

  lemma StringTells(value: Json, d: Dict, location: Location, path: Location, rule: Rule, py: Python)
    ensures Tells(
              StringBounds(value, d, location, py), Error(location, path, rule),
              path == [] && BreaksText(rule, value, d, py))
  {
    hide Code;
    hide Fault;
    hide Error;
    if value.Str? {
      StringCodes();
      FaultTells(!NotOver(|value.s|, Get(d, "maxLength")), MaxLength, location, path, rule);
      FaultTells(!NotUnder(|value.s|, Get(d, "minLength")), MinLength, location, path, rule);
      FaultTells(!Finds(value.s, Get(d, "pattern"), py), Pattern, location, path, rule);
    }
  }

  lemma BoundMeans(value: Json, d: Dict, key: string)
    requires IsANumber(value) && (Has(d, key) ==> IsANumber(Get(d, key).value))
    ensures var n := NumberOf(value);
            var m := NumberAt(d, key, n);
            && (Has(d, key) && !(n >= m) <==> IsUnder(value, Get(d, key)))
            && (Has(d, key) && !(n <= m) <==> IsOver(value, Get(d, key)))
            && (Has(d, key) && !(n > m) <==> IsNotOver(value, Get(d, key)))
            && (Has(d, key) && !(n < m) <==> IsNotUnder(value, Get(d, key)))
  {
  }

  lemma InclusiveTells(value: Json, d: Dict, location: Location, path: Location, rule: Rule)
    requires NumberIfAny(d, "minimum") && NumberIfAny(d, "maximum") && IsANumber(value)
    ensures var n := NumberOf(value);
            Tells(
              Join(
                Fault(Has(d, "minimum") && !(n >= NumberAt(d, "minimum", n)), "minimum", location),
                Fault(Has(d, "maximum") && !(n <= NumberAt(d, "maximum", n)), "maximum", location)),
              Error(location, path, rule),
              path == []
              && (|| (rule == Minimum && IsUnder(value, Get(d, "minimum")))
                  || (rule == Maximum && IsOver(value, Get(d, "maximum")))))
  {
    hide Code;
    NumberCodes();
    BoundMeans(value, d, "minimum");
    BoundMeans(value, d, "maximum");
    FaultTells(IsUnder(value, Get(d, "minimum")), Minimum, location, path, rule);
    FaultTells(IsOver(value, Get(d, "maximum")), Maximum, location, path, rule);
    hide Fault;
    hide Error;
    hide NumberAt;
    hide NumberOf;
    hide IsUnder;
    hide IsOver;
  }

  lemma ExclusiveTells(value: Json, d: Dict, location: Location, path: Location, rule: Rule)
    requires NumberIfAny(d, "exclusiveMinimum") && NumberIfAny(d, "exclusiveMaximum") && IsANumber(value)
    ensures var n := NumberOf(value);
            Tells(
              Join(
                Fault(
                  Has(d, "exclusiveMinimum") && !(n > NumberAt(d, "exclusiveMinimum", n)),
                  "exclusive_minimum", location),
                Fault(
                  Has(d, "exclusiveMaximum") && !(n < NumberAt(d, "exclusiveMaximum", n)),
                  "exclusive_maximum", location)),
              Error(location, path, rule),
              path == []
              && (|| (rule == ExclusiveMinimum && IsNotOver(value, Get(d, "exclusiveMinimum")))
                  || (rule == ExclusiveMaximum && IsNotUnder(value, Get(d, "exclusiveMaximum")))))
  {
    hide Code;
    NumberCodes();
    BoundMeans(value, d, "exclusiveMinimum");
    BoundMeans(value, d, "exclusiveMaximum");
    FaultTells(IsNotOver(value, Get(d, "exclusiveMinimum")), ExclusiveMinimum, location, path, rule);
    FaultTells(IsNotUnder(value, Get(d, "exclusiveMaximum")), ExclusiveMaximum, location, path, rule);
    hide Fault;
    hide Error;
    hide NumberAt;
    hide NumberOf;
    hide IsNotOver;
    hide IsNotUnder;
  }

  lemma NumberTells(value: Json, d: Dict, location: Location, path: Location, rule: Rule)
    requires BoundsAreNumbers(d)
    ensures Tells(
              NumberBounds(value, d, location), Error(location, path, rule), path == [] && BreaksNumber(rule, value, d))
  {
    hide Fault;
    hide Error;
    hide NumberAt;
    hide NumberOf;
    hide Less;
    hide LessOrSame;
    if IsANumber(value) {
      InclusiveTells(value, d, location, path, rule);
      ExclusiveTells(value, d, location, path, rule);
    }
  }

  lemma ArrayTells(value: Json, d: Dict, location: Location, path: Location, rule: Rule)
    requires WellFormed(value)
    ensures Tells(
              ArrayBounds(value, d, location), Error(location, path, rule), path == [] && BreaksArray(rule, value, d))
  {
    hide Code;
    hide Fault;
    hide Error;
    hide NoRepeats;
    hide Repeats;
    if value.Arr? {
      var items := value.items;
      ArrayCodes();
      FaultTells(!NotOver(|items|, Get(d, "maxItems")), MaxItems, location, path, rule);
      FaultTells(!NotUnder(|items|, Get(d, "minItems")), MinItems, location, path, rule);
      forall i | 0 <= i < |items| ensures WellFormed(items[i]) { ItemIsDoc(items, i); }
      RepeatsMeansRepeats(items, location);
      RepeatsTell(items, location, path, rule);
    }
  }

  lemma {:induction false} RepeatsTell(items: seq<Json>, location: Location, path: Location, rule: Rule)
    ensures Error(location, path, rule) in Repeats(items, location)
            <==> Repeats(items, location) != [] && rule == UniqueItems && path == []
  {
    if items != [] {
      RepeatsTell(items[..|items| - 1], location, path, rule);
      FaultTells(true, UniqueItems, location, path, rule);
    }
  }

  lemma RequiredTells(names: seq<Json>, fields: Dict, location: Location, path: Location, rule: Rule)
    ensures Tells(
              RequiredFaults(names, fields, location), Error(location, path, rule),
              rule == Missing && path == [] && LacksSome(Obj(fields), names))
  {
    var e := Error(location, path, rule);
    var parts := seq(|names|, i requires 0 <= i < |names| => RequiredFault(names[i], fields, location));
    JoinAllTells(parts, e);
    forall i | 0 <= i < |parts|
      ensures Tells(parts[i], e, Lacks(fields, names[i]) && rule == Missing && path == [])
    {
      FaultTells(Lacks(fields, names[i]), Missing, location, path, rule);
    }
    hide Error;
    assert forall i :: 0 <= i < |parts| && JoinAll(parts).Found? ==> parts[i].Found?;
    if LacksSome(Obj(fields), names) {
      var i :| 0 <= i < |names| && Lacks(fields, names[i]);
      assert Tells(parts[i], e, rule == Missing && path == []);
    }
  }

  lemma ChoicesTell(
    value: Json, schema: Json, location: Location, path: Location, rule: Rule, root: Json, py: Python)
    requires Belongs(schema, root, py) && WellFormed(value) && WellFormed(schema) && WellFormed(root)
    ensures Tells(
              Choices(value, schema, location, root, py), Error(location, path, rule),
              path == [] && BreaksChoice(rule, value, schema, root, py))
  {
    hide Tells;
    hide Join;
    hide Error;
    hide Choices;
    hide MeetsNone;
    hide MeetsNotOne;
    hide AnyOfFault;
    hide OneOfFault;
    hide Outcomes;
    AnyTells(value, schema, location, path, rule, root, py);
    OneTells(value, schema, location, path, rule, root, py);
    ChoicesIs(value, schema, location, root, py);
    var any := path == [] && rule == AnyOf && MeetsNone(value, schema, root, py);
    var one := path == [] && rule == OneOf && MeetsNotOne(value, schema, root, py);
    JoinTells(AnyOutcome(value, schema, location, root, py), OneOutcome(value, schema, location, root, py),
      Error(location, path, rule), any, one);
  }

  function AnyOutcome(value: Json, schema: Json, location: Location, root: Json, py: Python): (r: Outcome)
    requires Belongs(schema, root, py)
  {
    if Has(schema.fields, "anyOf") then
      AnyOfFault(Outcomes(value, schema, ListAt(schema.fields, "anyOf"), location, root, py), location)
    else CLEAN
  }

  function OneOutcome(value: Json, schema: Json, location: Location, root: Json, py: Python): (r: Outcome)
    requires Belongs(schema, root, py)
  {
    if Has(schema.fields, "oneOf") then
      OneOfFault(Outcomes(value, schema, ListAt(schema.fields, "oneOf"), location, root, py), location)
    else CLEAN
  }

  lemma ChoicesIs(value: Json, schema: Json, location: Location, root: Json, py: Python)
    requires Belongs(schema, root, py)
    ensures Choices(value, schema, location, root, py)
            == Join(AnyOutcome(value, schema, location, root, py), OneOutcome(value, schema, location, root, py))
  {
    hide Outcomes;
    hide Join;
  }

  lemma AnyTells(
    value: Json, schema: Json, location: Location, path: Location, rule: Rule, root: Json, py: Python)
    requires Belongs(schema, root, py) && WellFormed(value) && WellFormed(schema) && WellFormed(root)
    ensures Tells(
              AnyOutcome(value, schema, location, root, py),
              Error(location, path, rule), path == [] && rule == AnyOf && MeetsNone(value, schema, root, py))
  {
    AnyOfIs(value, schema, location, root, py);
    FaultTells(MeetsNone(value, schema, root, py), AnyOf, location, path, rule);
    hide Outcomes;
    hide Error;
    hide Code;
    hide Fault;
    hide AnyOfFault;
    hide SatisfiesOne;
  }

  lemma OneTells(
    value: Json, schema: Json, location: Location, path: Location, rule: Rule, root: Json, py: Python)
    requires Belongs(schema, root, py) && WellFormed(value) && WellFormed(schema) && WellFormed(root)
    ensures Tells(
              OneOutcome(value, schema, location, root, py),
              Error(location, path, rule), path == [] && rule == OneOf && MeetsNotOne(value, schema, root, py))
  {
    OneOfIs(value, schema, location, root, py);
    FaultTells(MeetsNotOne(value, schema, root, py), OneOf, location, path, rule);
    hide Outcomes;
    hide Error;
    hide Code;
    hide Fault;
    hide OneOfFault;
    hide SatisfiesOnly;
  }

  lemma AnyOfIs(value: Json, schema: Json, location: Location, root: Json, py: Python)
    requires Belongs(schema, root, py) && WellFormed(value) && WellFormed(schema) && WellFormed(root)
    ensures var outcome :=
              AnyOfFault(Outcomes(value, schema, ListAt(schema.fields, "anyOf"), location, root, py), location);
            outcome.Found? && Has(schema.fields, "anyOf") ==>
              outcome == Fault(MeetsNone(value, schema, root, py), Code(AnyOf), location)
  {
    AnyOfAgrees(value, schema, location, root, py);
    hide Outcomes;
    hide Matched;
    hide SatisfiesOne;
  }

  lemma OneOfIs(value: Json, schema: Json, location: Location, root: Json, py: Python)
    requires Belongs(schema, root, py) && WellFormed(value) && WellFormed(schema) && WellFormed(root)
    ensures var outcome :=
              OneOfFault(Outcomes(value, schema, ListAt(schema.fields, "oneOf"), location, root, py), location);
            outcome.Found? && Has(schema.fields, "oneOf") ==>
              outcome == Fault(MeetsNotOne(value, schema, root, py), Code(OneOf), location)
  {
    OneOfAgrees(value, schema, location, root, py);
    hide Outcomes;
    hide Matched;
    hide SatisfiesOnly;
  }

  lemma BoundsTell(value: Json, d: Dict, location: Location, path: Location, rule: Rule, py: Python)
    requires WellFormed(value) && BoundsAreNumbers(d)
    ensures Tells(
              Bounds(value, d, location, py), Error(location, path, rule),
              path == [] && BreaksBound(rule, value, d, py))
  {
    StringTells(value, d, location, path, rule, py);
    NumberTells(value, d, location, path, rule);
    ArrayTells(value, d, location, path, rule);
    hide StringBounds;
    hide NumberBounds;
    hide ArrayBounds;
    hide BreaksText;
    hide BreaksNumber;
    hide BreaksArray;
    hide Error;
    hide WellFormed;
    hide BoundsAreNumbers;
  }

  // ---- the whole validation ----

  lemma FourTell(
    c: Outcome, d: Outcome, f: Outcome, g: Outcome, e: SchemaError, pc: bool, pd: bool, pf: bool, pg: bool)
    requires Tells(c, e, pc) && Tells(d, e, pd) && Tells(f, e, pf) && Tells(g, e, pg)
    ensures Tells(Join(Join(c, d), Join(f, g)), e, pc || pd || pf || pg)
  {
  }

  /** A validation that returns reports exactly the broken rules, each at its place: neither an
      error for a rule that holds, nor silence about one that is broken. */
  lemma {:induction false} ErrorsExactlyWhen(
    value: Json, schema: Json, location: Location, path: Location, rule: Rule, root: Json, py: Python)
    requires Belongs(schema, root, py) && WellFormed(value) && WellFormed(schema) && WellFormed(root)
    ensures Tells(
              Validate(value, schema, location, root, py), Error(location, path, rule),
              Reported(value, schema, path, rule, root, py))
    decreases Size(value), Height(schema, root, py), Size(schema), 5
  {
    hide Error;
    hide TypeHolds;
    hide WrongType;
    hide Breaks;
    hide ReportedThrough;
    hide ReportedByAll;
    hide ReportedAt;
    hide ReportedItem;
    ReferenceTells(value, schema, location, path, rule, root, py);
    TypeAgrees(value, schema.fields);
    FaultTells(true, TypeRule, location, path, rule);
    if TypeHolds(value, schema.fields) {
      PartsTell(value, schema, location, path, rule, root, py);
    }
  }

  lemma {:induction false} PartsTell(
    value: Json, schema: Json, location: Location, path: Location, rule: Rule, root: Json, py: Python)
    requires Belongs(schema, root, py) && WellFormed(value) && WellFormed(schema) && WellFormed(root)
    requires TypeHolds(value, schema.fields) && !WrongType(value, schema.fields)
    requires Tells(
               ValidateReference(value, schema, location, root, py), Error(location, path, rule),
               ReportedThrough(value, schema, path, rule, root, py))
    ensures Tells(
              Validate(value, schema, location, root, py), Error(location, path, rule),
              Reported(value, schema, path, rule, root, py))
    decreases Size(value), Height(schema, root, py), Size(schema), 4, 1
  {
    hide Error;
    hide BreaksListed;
    hide RestClaim;
    hide Reported;
    hide ReportedThrough;
    hide Validate;
    hide TypeHolds;
    hide WrongType;
    hide EnumFault;
    hide ConstFault;
    hide RestOutcome;
    hide ValidateReference;
    hide Join;
    hide Tells;
    var d := schema.fields;
    var e := Error(location, path, rule);
    var through := ReportedThrough(value, schema, path, rule, root, py);
    var listed := path == [] && BreaksListed(rule, value, d);
    CheckedEnum(schema, root, py);
    ListedTells(value, d, location, path, rule);
    RestTells(value, schema, location, path, rule, root, py);
    ValidateIs(value, schema, location, root, py);
    ReportedIs(value, schema, path, rule, root, py);
    var followed := ValidateReference(value, schema, location, root, py);
    var own := Join(EnumFault(value, d, location), ConstFault(value, d, location));
    JoinTells(followed, own, e, through, listed);
    JoinTells(
      Join(followed, own), RestOutcome(value, schema, location, root, py), e, through || listed,
      RestClaim(value, schema, path, rule, root, py));
  }

  /** What is said beside the reference and the listed values. */
  ghost predicate RestClaim(value: Json, schema: Json, path: Location, rule: Rule, root: Json, py: Python)
    requires Belongs(schema, root, py)
  {
    var d := schema.fields;
    || ReportedByAll(value, schema, path, rule, root, py)
    || (path == [] && BreaksChoice(rule, value, schema, root, py))
    || (path == [] && BreaksBound(rule, value, d, py))
    || (path == [] && BreaksObject(rule, value, d))
    || (path != [] && path[0].Key? && ReportedAt(value, path[0].key, schema, path[1..], rule, root, py))
    || (path != [] && path[0].Index? && ReportedItem(value, path[0].index, schema, path[1..], rule, root, py))
  }

  function RestOutcome(value: Json, schema: Json, location: Location, root: Json, py: Python): (r: Outcome)
    requires Belongs(schema, root, py)
  {
    Join(
      Join(Composition(value, schema, location, root, py), Bounds(value, schema.fields, location, py)),
      Join(ValidateObject(value, schema, location, root, py), ValidateItems(value, schema, location, root, py)))
  }

  lemma {:induction false} RestTells(
    value: Json, schema: Json, location: Location, path: Location, rule: Rule, root: Json, py: Python)
    requires Belongs(schema, root, py) && WellFormed(value) && WellFormed(schema) && WellFormed(root)
    ensures Tells(
              RestOutcome(value, schema, location, root, py), Error(location, path, rule),
              RestClaim(value, schema, path, rule, root, py))
    decreases Size(value), Height(schema, root, py), Size(schema), 4, 0
  {
    hide Error;
    hide BreaksBound;
    hide BreaksChoice;
    hide BreaksObject;
    hide ReportedByAll;
    hide ReportedAt;
    hide ReportedItem;
    hide Composition;
    hide Bounds;
    hide ValidateObject;
    hide ValidateItems;
    hide Join;
    hide Tells;
    var d := schema.fields;
    BoundsMean(d, py);
    BoundsTell(value, d, location, path, rule, py);
    CompositionTells(value, schema, location, path, rule, root, py);
    ObjectTells(value, schema, location, path, rule, root, py);
    ItemsTell(value, schema, location, path, rule, root, py);
    FourTell(
      Composition(value, schema, location, root, py), Bounds(value, d, location, py),
      ValidateObject(value, schema, location, root, py), ValidateItems(value, schema, location, root, py),
      Error(location, path, rule),
      ReportedByAll(value, schema, path, rule, root, py) || (path == [] && BreaksChoice(rule, value, schema, root, py)),
      path == [] && BreaksBound(rule, value, d, py),
      || (path == [] && BreaksObject(rule, value, d))
      || (path != [] && path[0].Key? && ReportedAt(value, path[0].key, schema, path[1..], rule, root, py)),
      path != [] && path[0].Index? && ReportedItem(value, path[0].index, schema, path[1..], rule, root, py));
  }

  lemma ValidateIs(value: Json, schema: Json, location: Location, root: Json, py: Python)
    requires Belongs(schema, root, py) && !WrongType(value, schema.fields)
    ensures var d := schema.fields;
            Validate(value, schema, location, root, py)
            == Join(
                 Join(ValidateReference(value, schema, location, root, py),
                      Join(EnumFault(value, d, location), ConstFault(value, d, location))),
                 RestOutcome(value, schema, location, root, py))
  {
    hide WrongType;
    hide ValidateReference;
    hide EnumFault;
    hide ConstFault;
    hide Composition;
    hide Bounds;
    hide ValidateObject;
    hide ValidateItems;
    hide Join;
  }

  lemma ReportedIs(value: Json, schema: Json, path: Location, rule: Rule, root: Json, py: Python)
    requires Belongs(schema, root, py) && TypeHolds(value, schema.fields)
    ensures Reported(value, schema, path, rule, root, py) <==>
              var d := schema.fields;
              || ReportedThrough(value, schema, path, rule, root, py)
              || (path == [] && BreaksListed(rule, value, d))
              || RestClaim(value, schema, path, rule, root, py)
  {
    hide TypeHolds;
    hide BreaksListed;
    hide BreaksBound;
    hide BreaksChoice;
    hide BreaksObject;
    hide ReportedThrough;
    hide ReportedByAll;
    hide ReportedAt;
    hide ReportedItem;
  }

  lemma {:induction false} ReferenceTells(
    value: Json, schema: Json, location: Location, path: Location, rule: Rule, root: Json, py: Python)
    requires Belongs(schema, root, py) && WellFormed(value) && WellFormed(schema) && WellFormed(root)
    ensures Tells(
              ValidateReference(value, schema, location, root, py), Error(location, path, rule),
              ReportedThrough(value, schema, path, rule, root, py))
    decreases Size(value), Height(schema, root, py), Size(schema), 0
  {
    hide Cites;
    hide Error;
    forall target ensures Cites(schema, target, root, py)
                          <==> HasRef(schema) && Resolve(RefOf(schema), root, py) == Some(target) {
      CitesMeans(schema, target, root, py);
    }
    if HasRef(schema) {
      TargetIsLower(schema, root, py);
      ErrorsExactlyWhen(value, Resolve(RefOf(schema), root, py).value, location, path, rule, root, py);
    }
  }

  lemma {:induction false} CompositionTells(
    value: Json, schema: Json, location: Location, path: Location, rule: Rule, root: Json, py: Python)
    requires Belongs(schema, root, py) && WellFormed(value) && WellFormed(schema) && WellFormed(root)
    ensures Tells(
              Composition(value, schema, location, root, py), Error(location, path, rule),
              || ReportedByAll(value, schema, path, rule, root, py)
              || (path == [] && BreaksChoice(rule, value, schema, root, py)))
    decreases Size(value), Height(schema, root, py), Size(schema), 2
  {
    hide Error;
    hide BreaksChoice;
    hide ReportedByAll;
    ChoicesTell(value, schema, location, path, rule, root, py);
    AllTell(value, schema, location, path, rule, root, py);
  }

  lemma {:induction false} AllTell(
    value: Json, schema: Json, location: Location, path: Location, rule: Rule, root: Json, py: Python)
    requires Belongs(schema, root, py) && WellFormed(value) && WellFormed(schema) && WellFormed(root)
    ensures Tells(
              JoinAll(Outcomes(value, schema, ListAt(schema.fields, "allOf"), location, root, py)),
              Error(location, path, rule), ReportedByAll(value, schema, path, rule, root, py))
    decreases Size(value), Height(schema, root, py), Size(schema), 1, 1
  {
    hide Tells;
    hide Error;
    hide Reported;
    hide ReportedBy;
    hide ReportedByAll;
    hide Outcomes;
    hide JoinAll;
    var claims := EachTells(value, schema, location, path, rule, root, py);
    SomeTells(
      Outcomes(value, schema, ListAt(schema.fields, "allOf"), location, root, py), Error(location, path, rule), claims);
    AllMeans(value, schema, claims, path, rule, root, py);
  }

  lemma AllMeans(
    value: Json, schema: Json, claims: seq<bool>, path: Location, rule: Rule, root: Json, py: Python)
    requires Belongs(schema, root, py) && |claims| == |ListAt(schema.fields, "allOf")|
    requires forall i :: 0 <= i < |claims| ==> (claims[i] <==> ReportedBy(value, schema, i, path, rule, root, py))
    ensures ReportedByAll(value, schema, path, rule, root, py) <==> exists i :: 0 <= i < |claims| && claims[i]
  {
    hide Reported;
    hide ReportedBy;
    SomeIsListed(value, schema, path, rule, root, py);
    if i :| 0 <= i < |claims| && claims[i] { assert ReportedBy(value, schema, i, path, rule, root, py); }
  }

  lemma SomeIsListed(value: Json, schema: Json, path: Location, rule: Rule, root: Json, py: Python)
    requires Belongs(schema, root, py)
    ensures forall i: nat :: ReportedBy(value, schema, i, path, rule, root, py) ==> i < |ListAt(schema.fields, "allOf")|
  {
  }

  lemma {:induction false} EachTells(
    value: Json, schema: Json, location: Location, path: Location, rule: Rule, root: Json, py: Python)
    returns (claims: seq<bool>)
    requires Belongs(schema, root, py) && WellFormed(value) && WellFormed(schema) && WellFormed(root)
    ensures var all := ListAt(schema.fields, "allOf");
            var outcomes := Outcomes(value, schema, all, location, root, py);
            && |claims| == |all|
            && forall i :: 0 <= i < |all| ==>
                 && (claims[i] <==> ReportedBy(value, schema, i, path, rule, root, py))
                 && Tells(outcomes[i], Error(location, path, rule), claims[i])
    decreases Size(value), Height(schema, root, py), Size(schema), 1, 0
  {
    hide Error;
    hide Reported;
    hide ReportedBy;
    hide ValidateAlternative;
    var all := ListAt(schema.fields, "allOf");
    claims := seq(|all|, i requires 0 <= i < |all| => ReportedBy(value, schema, i, path, rule, root, py));
    forall i | 0 <= i < |all|
      ensures Tells(Outcomes(value, schema, all, location, root, py)[i], Error(location, path, rule), claims[i])
    {
      AlternativeTells(value, schema, i, location, path, rule, root, py);
    }
  }

  lemma {:induction false} AlternativeTells(
    value: Json, schema: Json, i: nat, location: Location, path: Location, rule: Rule, root: Json, py: Python)
    requires Belongs(schema, root, py) && WellFormed(value) && WellFormed(schema) && WellFormed(root)
    requires i < |ListAt(schema.fields, "allOf")|
    ensures Tells(
              Outcomes(value, schema, ListAt(schema.fields, "allOf"), location, root, py)[i],
              Error(location, path, rule), ReportedBy(value, schema, i, path, rule, root, py))
    decreases Size(value), Height(schema, root, py), Size(schema), 0
  {
    hide Error;
    hide Reported;
    hide Validate;
    var sub := ListAt(schema.fields, "allOf")[i];
    AlternativeBelongs(schema, sub, root, py);
    AlternativeIsDoc(schema, sub);
    ErrorsExactlyWhen(value, sub, location, path, rule, root, py);
  }

  lemma {:induction false} ItemsTell(
    value: Json, schema: Json, location: Location, path: Location, rule: Rule, root: Json, py: Python)
    requires Belongs(schema, root, py) && WellFormed(value) && WellFormed(schema) && WellFormed(root)
    ensures Tells(
              ValidateItems(value, schema, location, root, py), Error(location, path, rule),
              path != [] && path[0].Index? && ReportedItem(value, path[0].index, schema, path[1..], rule, root, py))
    decreases Size(value), Height(schema, root, py), Size(schema), 1
  {
    hide Error;
    if value.Arr? && Has(schema.fields, "items") {
      var e := Error(location, path, rule);
      var parts := seq(|value.items|, i requires 0 <= i < |value.items| =>
        ValidateItem(value, i, schema, location, root, py));
      JoinAllTells(parts, e);
      forall i | 0 <= i < |parts|
        ensures Tells(parts[i], e, path != [] && path[0] == Index(i)
                                   && ReportedItem(value, i, schema, path[1..], rule, root, py))
      {
        ItemTells(value, i, schema, location, path, rule, root, py);
      }
      assert JoinAll(parts).Found? ==> forall i :: 0 <= i < |parts| ==> parts[i].Found?;
    }
  }

  lemma {:induction false} ItemTells(
    value: Json, i: nat, schema: Json, location: Location, path: Location, rule: Rule, root: Json, py: Python)
    requires Belongs(schema, root, py) && WellFormed(value) && WellFormed(schema) && WellFormed(root)
    requires value.Arr? && i < |value.items| && Has(schema.fields, "items")
    ensures Tells(
              ValidateItem(value, i, schema, location, root, py), Error(location, path, rule),
              path != [] && path[0] == Index(i) && ReportedItem(value, i, schema, path[1..], rule, root, py))
    decreases Size(value), Height(schema, root, py), Size(schema), 0
  {
    hide Error;
    var sub := Get(schema.fields, "items").value;
    ItemsBelongs(schema, root, py);
    ItemSmaller(value.items, i);
    ItemIsDoc(value.items, i);
    GetIsDoc(schema.fields, "items");
    ErrorBelow(location, Index(i), path, rule);
    if path != [] && path[0] == Index(i) {
      ErrorsExactlyWhen(value.items[i], sub, location + [Index(i)], path[1..], rule, root, py);
    } else {
      ErrorsAreLocated(value.items[i], sub, location + [Index(i)], root, py);
      NotBelow(
        ValidateItem(value, i, schema, location, root, py), value.items[i], location, Index(i), path, rule);
    }
  }

  /** What is said of one property of the value. */
  ghost predicate PropertyClaim(
    value: Json, name: string, schema: Json, path: Location, rule: Rule, root: Json, py: Python)
    requires Belongs(schema, root, py)
  {
    path != [] && path[0] == Key(name) && ReportedAt(value, name, schema, path[1..], rule, root, py)
  }

  lemma {:induction false} ChildTells(
    child: Json, sub: Json, name: string, location: Location, path: Location, rule: Rule, root: Json, py: Python)
    requires Belongs(sub, root, py) && WellFormed(child) && WellFormed(sub) && WellFormed(root)
    ensures Tells(
              Validate(child, sub, location + [Key(name)], root, py), Error(location, path, rule),
              path != [] && path[0] == Key(name) && Reported(child, sub, path[1..], rule, root, py))
    decreases Size(child), Height(sub, root, py), Size(sub), 6
  {
    hide Error;
    ErrorBelow(location, Key(name), path, rule);
    if path != [] && path[0] == Key(name) {
      ErrorsExactlyWhen(child, sub, location + [Key(name)], path[1..], rule, root, py);
    } else {
      ErrorsAreLocated(child, sub, location + [Key(name)], root, py);
      NotBelow(Validate(child, sub, location + [Key(name)], root, py), child, location, Key(name), path, rule);
    }
  }

  lemma {:induction false} ExtraTells(
    value: Json, name: string, schema: Json, location: Location, path: Location, rule: Rule, root: Json, py: Python)
    requires Belongs(schema, root, py) && WellFormed(value) && WellFormed(schema) && WellFormed(root)
    requires value.Obj? && Has(value.fields, name)
    ensures Tells(
              ValidateExtra(value, name, schema, location, root, py), Error(location, path, rule),
              ExtraClaim(value, name, schema, path, rule, root, py))
    decreases Size(value), Height(schema, root, py), Size(schema), 0, 1
  {
    hide Validate;
    hide Reported;
    hide Error;
    var d := schema.fields;
    if Has(DictAt(d, "properties"), name) {
    } else if AdditionalSchema(d).Some? {
      AdditionalTells(value, name, schema, location, path, rule, root, py);
    } else {
      FaultTells(true, Unexpected, location, path, rule);
    }
  }

  lemma {:induction false} AdditionalTells(
    value: Json, name: string, schema: Json, location: Location, path: Location, rule: Rule, root: Json, py: Python)
    requires Belongs(schema, root, py) && WellFormed(value) && WellFormed(schema) && WellFormed(root)
    requires value.Obj? && Has(value.fields, name) && AdditionalSchema(schema.fields).Some?
    requires !Has(DictAt(schema.fields, "properties"), name)
    ensures Tells(
              ValidateExtra(value, name, schema, location, root, py), Error(location, path, rule),
              PropertyClaim(value, name, schema, path, rule, root, py))
    decreases Size(value), Height(schema, root, py), Size(schema), 0, 0
  {
    hide Validate;
    hide Reported;
    hide Error;
    var d := schema.fields;
    AdditionalBelongs(schema, root, py);
    GetSmaller(value.fields, name);
    GetIsDoc(value.fields, name);
    GetIsDoc(d, "additionalProperties");
    ChildTells(Get(value.fields, name).value, AdditionalSchema(d).value, name, location, path, rule, root, py);
  }

  lemma {:induction false} NamedTells(
    value: Json, name: string, schema: Json, location: Location, path: Location, rule: Rule, root: Json, py: Python)
    requires Belongs(schema, root, py) && WellFormed(value) && WellFormed(schema) && WellFormed(root)
    requires value.Obj? && Has(DictAt(schema.fields, "properties"), name)
    ensures Tells(
              ValidateNamed(value, name, schema, location, root, py), Error(location, path, rule),
              PropertyClaim(value, name, schema, path, rule, root, py))
    decreases Size(value), Height(schema, root, py), Size(schema), 0
  {
    hide Validate;
    hide Reported;
    hide Error;
    if Has(value.fields, name) {
      var props := DictAt(schema.fields, "properties");
      PropertyBelongs(schema, name, root, py);
      GetSmaller(value.fields, name);
      GetIsDoc(value.fields, name);
      GetIsDoc(schema.fields, "properties");
      GetIsDoc(props, name);
      DocsTransitive(Obj(props), schema);
      ChildTells(Get(value.fields, name).value, Get(props, name).value, name, location, path, rule, root, py);
    }
  }

  /** What is said at the value's own place, or below it, for one of its fields the schema does
      not name. */
  ghost predicate ExtraClaim(
    value: Json, name: string, schema: Json, path: Location, rule: Rule, root: Json, py: Python)
    requires Belongs(schema, root, py)
  {
    && !Has(DictAt(schema.fields, "properties"), name)
    && (|| PropertyClaim(value, name, schema, path, rule, root, py)
        || (Forbids(schema.fields) && rule == Unexpected && path == []))
  }

  predicate Forbids(d: Dict)
  {
    Get(d, "additionalProperties") == Some(Bool(false))
  }

  lemma {:induction false} ExtrasTell(
    value: Json, schema: Json, location: Location, path: Location, rule: Rule, root: Json, py: Python)
    returns (claims: seq<bool>)
    requires Belongs(schema, root, py) && WellFormed(value) && WellFormed(schema) && WellFormed(root)
    requires value.Obj?
    ensures |claims| == |value.fields|
    ensures forall i :: 0 <= i < |claims| ==>
              (claims[i] <==> ExtraClaim(value, value.fields[i].key, schema, path, rule, root, py))
    ensures Tells(
              JoinAll(ExtraOutcomes(value, schema, location, root, py)), Error(location, path, rule),
              exists i :: 0 <= i < |claims| && claims[i])
    decreases Size(value), Height(schema, root, py), Size(schema), 1
  {
    hide Error;
    hide ExtraClaim;
    hide ValidateExtra;
    hide JoinAll;
    hide Tells;
    var fields := value.fields;
    claims := seq(|fields|, i requires 0 <= i < |fields| =>
      ExtraClaim(value, fields[i].key, schema, path, rule, root, py));
    var extras := ExtraOutcomes(value, schema, location, root, py);
    forall i | 0 <= i < |extras| ensures Tells(extras[i], Error(location, path, rule), claims[i]) {
      assert fields[i].key in Keys(fields);
      ExtraTells(value, fields[i].key, schema, location, path, rule, root, py);
    }
    SomeTells(extras, Error(location, path, rule), claims);
  }

  lemma {:induction false} KnownsTell(
    value: Json, schema: Json, location: Location, path: Location, rule: Rule, root: Json, py: Python)
    returns (claims: seq<bool>)
    requires Belongs(schema, root, py) && WellFormed(value) && WellFormed(schema) && WellFormed(root)
    requires value.Obj?
    ensures |claims| == |DictAt(schema.fields, "properties")|
    ensures forall i :: 0 <= i < |claims| ==>
              (claims[i] <==>
               PropertyClaim(value, DictAt(schema.fields, "properties")[i].key, schema, path, rule, root, py))
    ensures Tells(
              JoinAll(NamedOutcomes(value, schema, location, root, py)), Error(location, path, rule),
              exists i :: 0 <= i < |claims| && claims[i])
    decreases Size(value), Height(schema, root, py), Size(schema), 1
  {
    hide Error;
    hide PropertyClaim;
    hide ValidateNamed;
    hide JoinAll;
    hide Tells;
    var named := DictAt(schema.fields, "properties");
    claims := seq(|named|, i requires 0 <= i < |named| =>
      PropertyClaim(value, named[i].key, schema, path, rule, root, py));
    var knowns := NamedOutcomes(value, schema, location, root, py);
    forall i | 0 <= i < |knowns| ensures Tells(knowns[i], Error(location, path, rule), claims[i]) {
      assert named[i].key in Keys(named);
      NamedTells(value, named[i].key, schema, location, path, rule, root, py);
    }
    SomeTells(knowns, Error(location, path, rule), claims);
  }

  /** The claims about the fields taken one by one are those about the field on the path, and
      about one that is forbidden. */
  lemma ClaimsMean(
    value: Json, schema: Json, extras: seq<bool>, knowns: seq<bool>, path: Location, rule: Rule,
    root: Json, py: Python)
    requires Belongs(schema, root, py) && value.Obj? && |extras| == |value.fields|
    requires |knowns| == |DictAt(schema.fields, "properties")|
    requires forall i :: 0 <= i < |extras| ==>
               (extras[i] <==> ExtraClaim(value, value.fields[i].key, schema, path, rule, root, py))
    requires forall i :: 0 <= i < |knowns| ==>
               (knowns[i] <==>
                PropertyClaim(value, DictAt(schema.fields, "properties")[i].key, schema, path, rule, root, py))
    ensures (exists i :: 0 <= i < |extras| && extras[i]) || (exists i :: 0 <= i < |knowns| && knowns[i])
            <==> || (path == [] && rule == Unexpected && HasForbidden(value, schema.fields))
                 || (path != [] && path[0].Key? && ReportedAt(value, path[0].key, schema, path[1..], rule, root, py))
  {
    hide ReportedAt;
    hide DictAt;
    hide Get;
    hide Acceptable;
    var named := DictAt(schema.fields, "properties");
    if path == [] && rule == Unexpected && HasForbidden(value, schema.fields) {
      var name :| Has(value.fields, name) && !Has(named, name);
      var i := IndexOf(value.fields, name);
      assert extras[i];
    }
    if path != [] && path[0].Key? && ReportedAt(value, path[0].key, schema, path[1..], rule, root, py) {
      var name := path[0].key;
      ReportedAtHas(value, name, schema, path[1..], rule, root, py);
      if Has(named, name) {
        var i := IndexOf(named, name);
        assert knowns[i];
      } else {
        var i := IndexOf(value.fields, name);
        assert extras[i];
      }
    }
    forall i | 0 <= i < |value.fields| ensures Has(value.fields, value.fields[i].key) {
      assert value.fields[i].key in Keys(value.fields);
    }
  }

  lemma IndexOf(d: Dict, name: string) returns (i: nat)
    requires Has(d, name)
    ensures i < |d| && d[i].key == name
  {
    i :| 0 <= i < |d| && d[i].key == name;
  }

  lemma ReportedAtHas(
    value: Json, name: string, schema: Json, path: Location, rule: Rule, root: Json, py: Python)
    requires Belongs(schema, root, py) && ReportedAt(value, name, schema, path, rule, root, py)
    ensures value.Obj? && Has(value.fields, name)
  {
  }

  lemma {:induction false} PropertiesTell(
    value: Json, schema: Json, location: Location, path: Location, rule: Rule, root: Json, py: Python)
    requires Belongs(schema, root, py) && WellFormed(value) && WellFormed(schema) && WellFormed(root)
    requires value.Obj?
    ensures Tells(
              Join(JoinAll(ExtraOutcomes(value, schema, location, root, py)),
                   JoinAll(NamedOutcomes(value, schema, location, root, py))),
              Error(location, path, rule),
              || (path == [] && rule == Unexpected && HasForbidden(value, schema.fields))
              || (path != [] && path[0].Key? && ReportedAt(value, path[0].key, schema, path[1..], rule, root, py)))
    decreases Size(value), Height(schema, root, py), Size(schema), 2
  {
    hide Error;
    hide ReportedAt;
    hide ExtraClaim;
    hide PropertyClaim;
    hide HasForbidden;
    hide JoinAll;
    hide Get;
    hide Acceptable;
    var extras := ExtrasTell(value, schema, location, path, rule, root, py);
    var knowns := KnownsTell(value, schema, location, path, rule, root, py);
    ClaimsMean(value, schema, extras, knowns, path, rule, root, py);
  }

  lemma {:induction false} ObjectTells(
    value: Json, schema: Json, location: Location, path: Location, rule: Rule, root: Json, py: Python)
    requires Belongs(schema, root, py) && WellFormed(value) && WellFormed(schema) && WellFormed(root)
    ensures Tells(
              ValidateObject(value, schema, location, root, py), Error(location, path, rule),
              || (path == [] && BreaksObject(rule, value, schema.fields))
              || (path != [] && path[0].Key? && ReportedAt(value, path[0].key, schema, path[1..], rule, root, py)))
    decreases Size(value), Height(schema, root, py), Size(schema), 3
  {
    hide Error;
    hide LacksSome;
    hide HasForbidden;
    hide RequiredFaults;
    if value.Obj? {
      RequiredTells(ListAt(schema.fields, "required"), value.fields, location, path, rule);
      PropertiesTell(value, schema, location, path, rule, root, py);
    } else {
      NotAnObjectBreaks(value, schema.fields);
    }
  }

  lemma NotAnObjectBreaks(value: Json, d: Dict)
    requires !value.Obj?
    ensures !LacksSome(value, ListAt(d, "required")) && !HasForbidden(value, d)
  {
  }
}
