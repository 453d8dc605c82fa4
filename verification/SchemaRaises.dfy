/** When validation raises instead of returning errors: exactly when a walk through the schema
    comes to one that takes objects and requires a name that is a list or an object. */
module SchemaRaises {
  import opened Wrappers
  import opened Json
  import opened SchemaCheck
  import opened RefCycles
  import opened Validator
  import opened SchemaMeaning

  ghost predicate NamesHashable(d: Dict)
  {
    forall i :: 0 <= i < |ListAt(d, "required")| ==>
      !ListAt(d, "required")[i].Arr? && !ListAt(d, "required")[i].Obj?
  }

  /** A schema that takes objects and requires a name that is a list or an object. */
  ghost predicate CanRaise(schema: Json)
  {
    schema.Obj? && !WrongType(Obj([]), schema.fields) && !NamesHashable(schema.fields)
  }

  // ---- the walk ----

  /** A schema applied to some value of a type. */
  datatype Spot = Spot(schema: Json, kind: string)

  /** Whether validation looks further into a value of this type. */
  predicate Takes(schema: Json, kind: string)
  {
    && schema.Obj?
    && match Get(schema.fields, "type")
       case Some(Str(expected)) => Matches(kind, expected)
       case _ => true
  }

  ghost predicate IsProperty(schema: Json, sub: Json)
    requires schema.Obj?
  {
    || (exists name :: Has(DictAt(schema.fields, "properties"), name)
                       && Get(DictAt(schema.fields, "properties"), name).value == sub)
    || AdditionalSchema(schema.fields) == Some(sub)
  }

  ghost predicate Refers(a: Spot, b: Spot, root: Json, py: Python)
  {
    HasRef(a.schema) && Resolve(RefOf(a.schema), root, py) == Some(b.schema) && b.kind == a.kind
  }

  ghost predicate Offers(a: Spot, b: Spot)
  {
    Takes(a.schema, a.kind) && b.schema in Alternatives(a.schema.fields) && b.kind == a.kind
  }

  ghost predicate Names(a: Spot, b: Spot)
  {
    a.kind == "object" && Takes(a.schema, "object") && IsProperty(a.schema, b.schema)
  }

  ghost predicate Holds(a: Spot, b: Spot)
  {
    a.kind == "array" && Takes(a.schema, "array") && Get(a.schema.fields, "items") == Some(b.schema)
  }

  /** Validation at a goes on to b: a reference at any value; where the type matches, an
      alternative at the same value, a property schema at an object, the item schema at an
      array. */
  ghost predicate Leads(a: Spot, b: Spot, root: Json, py: Python)
  {
    Refers(a, b, root, py) || Offers(a, b) || Names(a, b) || Holds(a, b)
  }

  /** Within n steps of the walk, an object is checked against such a schema. */
  ghost predicate Reaches(a: Spot, n: nat, root: Json, py: Python)
    decreases n
  {
    || (a.kind == "object" && CanRaise(a.schema))
    || (n > 0 && exists b :: Leads(a, b, root, py) && Reaches(b, n - 1, root, py))
  }

  ghost predicate Safe(a: Spot, root: Json, py: Python)
  {
    forall n: nat :: !Reaches(a, n, root, py)
  }

  /** No walk from the root comes to such a schema, whatever the type of the answer. */
  ghost predicate SafeDocument(root: Json, py: Python)
  {
    forall kind :: Safe(Spot(root, kind), root, py)
  }

  lemma SafeStep(a: Spot, b: Spot, root: Json, py: Python)
    requires Safe(a, root, py) && Leads(a, b, root, py)
    ensures Safe(b, root, py)
  {
    forall n: nat ensures !Reaches(b, n, root, py) { assert !Reaches(a, n + 1, root, py); }
  }

  lemma SafeHere(schema: Json, root: Json, py: Python)
    requires Safe(Spot(schema, "object"), root, py)
    ensures !CanRaise(schema)
  {
    assert !Reaches(Spot(schema, "object"), 0, root, py);
  }

  lemma LeadsBelongs(a: Spot, b: Spot, root: Json, py: Python)
    requires Belongs(a.schema, root, py) && Leads(a, b, root, py)
    ensures Belongs(b.schema, root, py)
  {
    if Refers(a, b, root, py) {
      TargetIsLower(a.schema, root, py);
    } else if Offers(a, b) {
      AlternativeBelongs(a.schema, b.schema, root, py);
    } else if Holds(a, b) {
      ItemsBelongs(a.schema, root, py);
    } else if AdditionalSchema(a.schema.fields) == Some(b.schema) {
      AdditionalBelongs(a.schema, root, py);
    } else {
      var name :| Has(DictAt(a.schema.fields, "properties"), name)
                  && Get(DictAt(a.schema.fields, "properties"), name).value == b.schema;
      PropertyBelongs(a.schema, name, root, py);
    }
  }

  // ---- a safe walk never raises ----

  lemma {:induction false} SafeNeverRaises(
    value: Json, schema: Json, location: Location, root: Json, py: Python)
    requires Belongs(schema, root, py) && Safe(Spot(schema, TypeOf(value)), root, py)
    ensures Validate(value, schema, location, root, py).Found?
    decreases Size(value), Height(schema, root, py), Size(schema), 2
  {
    hide Composition;
    hide ValidateObject;
    hide ValidateItems;
    hide ValidateReference;
    hide Safe;
    BoundsFound(value, schema.fields, location, py);
    hide Bounds;
    ReferenceFound(value, schema, location, root, py);
    if !WrongType(value, schema.fields) {
      CompositionFound(value, schema, location, root, py);
      ObjectFound(value, schema, location, root, py);
      ItemsFound(value, schema, location, root, py);
    }
  }

  lemma BoundsFound(value: Json, d: Dict, location: Location, py: Python)
    ensures Bounds(value, d, location, py).Found?
  {
  }

  lemma {:induction false} ReferenceFound(value: Json, schema: Json, location: Location, root: Json, py: Python)
    requires Belongs(schema, root, py) && Safe(Spot(schema, TypeOf(value)), root, py)
    ensures ValidateReference(value, schema, location, root, py).Found?
    decreases Size(value), Height(schema, root, py), Size(schema), 1
  {
    if HasRef(schema) {
      TargetIsLower(schema, root, py);
      SafeStep(Spot(schema, TypeOf(value)), Spot(Resolve(RefOf(schema), root, py).value, TypeOf(value)), root, py);
      SafeNeverRaises(value, Resolve(RefOf(schema), root, py).value, location, root, py);
    }
  }

  lemma {:induction false} ChoicesFound(value: Json, schema: Json, location: Location, root: Json, py: Python)
    requires Belongs(schema, root, py) && Safe(Spot(schema, TypeOf(value)), root, py)
    requires !WrongType(value, schema.fields)
    ensures Choices(value, schema, location, root, py).Found?
    decreases Size(value), Height(schema, root, py), Size(schema), 1, 1
  {
    var some := ListAt(schema.fields, "anyOf");
    var one := ListAt(schema.fields, "oneOf");
    AlternativesFound(value, schema, some, location, root, py);
    AlternativesFound(value, schema, one, location, root, py);
    FaultsFound(Outcomes(value, schema, some, location, root, py), location);
    FaultsFound(Outcomes(value, schema, one, location, root, py), location);
  }

  lemma FaultsFound(outcomes: seq<Outcome>, location: Location)
    requires forall i :: 0 <= i < |outcomes| ==> outcomes[i].Found?
    ensures AnyOfFault(outcomes, location).Found? && OneOfFault(outcomes, location).Found?
  {
  }

  lemma {:induction false} CompositionFound(value: Json, schema: Json, location: Location, root: Json, py: Python)
    requires Belongs(schema, root, py) && Safe(Spot(schema, TypeOf(value)), root, py)
    requires !WrongType(value, schema.fields)
    ensures Composition(value, schema, location, root, py).Found?
    decreases Size(value), Height(schema, root, py), Size(schema), 1, 2
  {
    AlternativesFound(value, schema, ListAt(schema.fields, "allOf"), location, root, py);
    ChoicesFound(value, schema, location, root, py);
  }

  lemma {:induction false} AlternativesFound(
    value: Json, schema: Json, subs: seq<Json>, location: Location, root: Json, py: Python)
    requires Belongs(schema, root, py) && Safe(Spot(schema, TypeOf(value)), root, py)
    requires AreAlternatives(subs, schema.fields)
    requires !WrongType(value, schema.fields)
    ensures forall i :: 0 <= i < |subs| ==> Outcomes(value, schema, subs, location, root, py)[i].Found?
    decreases Size(value), Height(schema, root, py), Size(schema), 1, 0
  {
    forall i | 0 <= i < |subs| ensures Outcomes(value, schema, subs, location, root, py)[i].Found? {
      AlternativeBelongs(schema, subs[i], root, py);
      SafeStep(Spot(schema, TypeOf(value)), Spot(subs[i], TypeOf(value)), root, py);
      SafeNeverRaises(value, subs[i], location, root, py);
    }
  }

  lemma {:induction false} ItemsFound(value: Json, schema: Json, location: Location, root: Json, py: Python)
    requires Belongs(schema, root, py) && Safe(Spot(schema, TypeOf(value)), root, py)
    requires !WrongType(value, schema.fields)
    ensures ValidateItems(value, schema, location, root, py).Found?
    decreases Size(value), Height(schema, root, py), Size(schema), 1
  {
    if value.Arr? && Has(schema.fields, "items") {
      forall i | 0 <= i < |value.items| ensures ValidateItem(value, i, schema, location, root, py).Found? {
        ItemsBelongs(schema, root, py);
        ItemSmaller(value.items, i);
        SafeStep(
          Spot(schema, TypeOf(value)), Spot(Get(schema.fields, "items").value, TypeOf(value.items[i])), root, py);
        SafeNeverRaises(value.items[i], Get(schema.fields, "items").value, location + [Index(i)], root, py);
      }
    }
  }

  lemma {:induction false} ObjectFound(value: Json, schema: Json, location: Location, root: Json, py: Python)
    requires Belongs(schema, root, py) && Safe(Spot(schema, TypeOf(value)), root, py)
    requires !WrongType(value, schema.fields)
    ensures ValidateObject(value, schema, location, root, py).Found?
    decreases Size(value), Height(schema, root, py), Size(schema), 1, 1
  {
    if value.Obj? {
      PropertiesFound(value, schema, location, root, py);
      RequiredFound(value, schema, location, root, py);
    }
  }

  lemma RequiredFound(value: Json, schema: Json, location: Location, root: Json, py: Python)
    requires Belongs(schema, root, py) && Safe(Spot(schema, TypeOf(value)), root, py) && value.Obj?
    requires !WrongType(value, schema.fields)
    ensures RequiredFaults(ListAt(schema.fields, "required"), value.fields, location).Found?
  {
    SafeHere(schema, root, py);
  }

  lemma {:induction false} PropertiesFound(value: Json, schema: Json, location: Location, root: Json, py: Python)
    requires Belongs(schema, root, py) && Safe(Spot(schema, TypeOf(value)), root, py) && value.Obj?
    requires !WrongType(value, schema.fields)
    ensures JoinAll(ExtraOutcomes(value, schema, location, root, py)).Found?
    ensures JoinAll(NamedOutcomes(value, schema, location, root, py)).Found?
    decreases Size(value), Height(schema, root, py), Size(schema), 1, 0
  {
    hide Safe;
    hide Validate;
    var named := DictAt(schema.fields, "properties");
    forall i | 0 <= i < |value.fields| ensures ExtraOutcomes(value, schema, location, root, py)[i].Found? {
      assert value.fields[i].key in Keys(value.fields);
      PropertyFound(value, value.fields[i].key, schema, location, root, py);
    }
    forall i | 0 <= i < |named| ensures NamedOutcomes(value, schema, location, root, py)[i].Found? {
      assert named[i].key in Keys(named);
      PropertyFound(value, named[i].key, schema, location, root, py);
    }
  }

  lemma {:induction false} PropertyFound(
    value: Json, name: string, schema: Json, location: Location, root: Json, py: Python)
    requires Belongs(schema, root, py) && Safe(Spot(schema, TypeOf(value)), root, py) && value.Obj?
    requires !WrongType(value, schema.fields)
    ensures Has(value.fields, name) ==> ValidateExtra(value, name, schema, location, root, py).Found?
    ensures Has(DictAt(schema.fields, "properties"), name) ==>
              ValidateNamed(value, name, schema, location, root, py).Found?
    decreases Size(value), Height(schema, root, py), Size(schema), 0
  {
    var d := schema.fields;
    if Has(value.fields, name) {
      var child := Get(value.fields, name).value;
      GetSmaller(value.fields, name);
      if Has(DictAt(d, "properties"), name) {
        var props := DictAt(d, "properties");
        PropertyBelongs(schema, name, root, py);
        SafeStep(Spot(schema, TypeOf(value)), Spot(Get(props, name).value, TypeOf(child)), root, py);
        SafeNeverRaises(child, Get(props, name).value, location + [Key(name)], root, py);
      } else if AdditionalSchema(d).Some? {
        AdditionalBelongs(schema, root, py);
        SafeStep(Spot(schema, TypeOf(value)), Spot(AdditionalSchema(d).value, TypeOf(child)), root, py);
        SafeNeverRaises(child, AdditionalSchema(d).value, location + [Key(name)], root, py);
      }
    }
  }

  // ---- an unsafe walk gives a value that raises ----

  /** A schema that can raise does, on the empty object. */
  lemma EmptyObjectRaises(schema: Json, location: Location, root: Json, py: Python)
    requires Belongs(schema, root, py) && CanRaise(schema)
    ensures Validate(Obj([]), schema, location, root, py).Raised?
  {
    var names := ListAt(schema.fields, "required");
    var i :| 0 <= i < |names| && (names[i].Arr? || names[i].Obj?);
    RequiredRaises(names, i, [], location);
    hide Choices;
    hide Bounds;
  }

  lemma RequiredRaises(names: seq<Json>, i: nat, fields: Dict, location: Location)
    requires i < |names| && (names[i].Arr? || names[i].Obj?)
    ensures RequiredFaults(names, fields, location).Raised?
  {
    var parts := seq(|names|, i requires 0 <= i < |names| => RequiredFault(names[i], fields, location));
    assert parts[i].Raised?;
  }

  lemma ReferenceRaises(value: Json, schema: Json, location: Location, root: Json, py: Python)
    requires Belongs(schema, root, py) && HasRef(schema) && Resolve(RefOf(schema), root, py).Some?
    requires Belongs(Resolve(RefOf(schema), root, py).value, root, py)
    requires Validate(value, Resolve(RefOf(schema), root, py).value, location, root, py).Raised?
    ensures Validate(value, schema, location, root, py).Raised?
  {
    assert ValidateReference(value, schema, location, root, py).Raised?;
    hide ValidateReference;
    hide Composition;
    hide ValidateObject;
    hide ValidateItems;
    hide Bounds;
  }

  lemma PartRaises(value: Json, schema: Json, location: Location, root: Json, py: Python)
    requires Belongs(schema, root, py) && !WrongType(value, schema.fields)
    requires || Composition(value, schema, location, root, py).Raised?
             || ValidateObject(value, schema, location, root, py).Raised?
             || ValidateItems(value, schema, location, root, py).Raised?
    ensures Validate(value, schema, location, root, py).Raised?
  {
    hide ValidateReference;
    hide Composition;
    hide ValidateObject;
    hide ValidateItems;
    hide Bounds;
  }

  ghost predicate SomeRaised(outcomes: seq<Outcome>)
  {
    exists i :: 0 <= i < |outcomes| && outcomes[i].Raised?
  }

  lemma AllOfRaises(value: Json, schema: Json, location: Location, root: Json, py: Python)
    requires Belongs(schema, root, py)
    requires SomeRaised(Outcomes(value, schema, ListAt(schema.fields, "allOf"), location, root, py))
    ensures Composition(value, schema, location, root, py).Raised?
  {
    hide Outcomes;
    hide Choices;
  }

  lemma ChoiceRaises(value: Json, schema: Json, key: string, location: Location, root: Json, py: Python)
    requires Belongs(schema, root, py) && key in ["anyOf", "oneOf"] && Has(schema.fields, key)
    requires SomeRaised(Outcomes(value, schema, ListAt(schema.fields, key), location, root, py))
    ensures Composition(value, schema, location, root, py).Raised?
  {
    hide Outcomes;
    assert Choices(value, schema, location, root, py).Raised?;
  }

  lemma AlternativeRaises(value: Json, schema: Json, sub: Json, location: Location, root: Json, py: Python)
    requires Belongs(schema, root, py) && !WrongType(value, schema.fields) && sub in Alternatives(schema.fields)
    requires Belongs(sub, root, py) && Validate(value, sub, location, root, py).Raised?
    ensures Validate(value, schema, location, root, py).Raised?
  {
    hide Validate;
    hide Outcomes;
    hide Composition;
    hide SomeRaised;
    hide ListAt;
    var d := schema.fields;
    if sub in ListAt(d, "allOf") {
      OutcomeRaises(value, schema, ListAt(d, "allOf"), sub, location, root, py);
      AllOfRaises(value, schema, location, root, py);
    } else if sub in ListAt(d, "anyOf") {
      OutcomeRaises(value, schema, ListAt(d, "anyOf"), sub, location, root, py);
      KeywordHere(d, "anyOf", sub);
      ChoiceRaises(value, schema, "anyOf", location, root, py);
    } else {
      OutcomeRaises(value, schema, ListAt(d, "oneOf"), sub, location, root, py);
      KeywordHere(d, "oneOf", sub);
      ChoiceRaises(value, schema, "oneOf", location, root, py);
    }
    PartRaises(value, schema, location, root, py);
  }

  lemma KeywordHere(d: Dict, key: string, sub: Json)
    requires sub in ListAt(d, key)
    ensures Has(d, key)
  {
  }

  lemma OutcomeRaises(
    value: Json, schema: Json, subs: seq<Json>, sub: Json, location: Location, root: Json, py: Python)
    requires Belongs(schema, root, py) && AreAlternatives(subs, schema.fields) && sub in subs
    requires Belongs(sub, root, py) && Validate(value, sub, location, root, py).Raised?
    ensures SomeRaised(Outcomes(value, schema, subs, location, root, py))
  {
    hide Validate;
    var i :| 0 <= i < |subs| && subs[i] == sub;
    assert Outcomes(value, schema, subs, location, root, py)[i].Raised?;
  }

  /** An object of one property. */
  function Single(name: string, value: Json): Json
  {
    Obj([Entry(name, value)])
  }

  lemma SingleHas(name: string, value: Json)
    ensures Has(Single(name, value).fields, name) && Get(Single(name, value).fields, name) == Some(value)
  {
    var d := Single(name, value).fields;
    assert d[0].key in Keys(d);
    GetDistinct(d, 0);
  }

  /** A document of nothing but objects and arrays, no object with a name twice. */
  ghost predicate Bare(v: Json)
  {
    WellFormed(v) && OnlyHolds(v)
  }

  predicate OnlyHolds(v: Json)
  {
    match v
    case Arr(items) => forall i :: 0 <= i < |items| ==> OnlyHolds(items[i])
    case Obj(fields) => forall i :: 0 <= i < |fields| ==> OnlyHolds(fields[i].value)
    case _ => false
  }

  lemma WrappedBare(name: string, value: Json)
    requires Bare(value)
    ensures Bare(Single(name, value)) && Bare(Arr([value]))
  {
    var d := Single(name, value).fields;
    assert d[1..] == [] && [value][1..] == [];
    assert DocsFields(d) == Docs(d[0].value) + DocsFields(d[1..]);
    assert DocsItems([value]) == Docs([value][0]) + DocsItems([value][1..]);
    assert Docs(Single(name, value)) == {Single(name, value)} + Docs(value);
    assert Docs(Arr([value])) == {Arr([value])} + Docs(value);
  }

  lemma PropertyRaises(value: Json, name: string, schema: Json, location: Location, root: Json, py: Python)
    requires Belongs(schema, root, py) && !WrongType(Obj([]), schema.fields)
    requires var props := DictAt(schema.fields, "properties");
             var sub := if Has(props, name) then Get(props, name) else AdditionalSchema(schema.fields);
             && sub.Some? && Belongs(sub.value, root, py)
             && Validate(value, sub.value, location + [Key(name)], root, py).Raised?
    ensures Validate(Single(name, value), schema, location, root, py).Raised?
  {
    hide Validate;
    hide ValidateObject;
    hide Single;
    SingleHas(name, value);
    if Has(DictAt(schema.fields, "properties"), name) {
      NamedRaises(value, name, schema, location, root, py);
    } else {
      ExtraRaises(value, name, schema, location, root, py);
    }
    SingleFits(name, value, schema);
    PartRaises(Single(name, value), schema, location, root, py);
  }

  lemma SingleFits(name: string, value: Json, schema: Json)
    requires schema.Obj? && !WrongType(Obj([]), schema.fields)
    ensures !WrongType(Single(name, value), schema.fields)
  {
  }

  lemma NamedRaises(value: Json, name: string, schema: Json, location: Location, root: Json, py: Python)
    requires Belongs(schema, root, py) && Has(DictAt(schema.fields, "properties"), name)
    requires var sub := Get(DictAt(schema.fields, "properties"), name).value;
             Belongs(sub, root, py) && Validate(value, sub, location + [Key(name)], root, py).Raised?
    ensures ValidateObject(Single(name, value), schema, location, root, py).Raised?
  {
    hide Validate;
    var props := DictAt(schema.fields, "properties");
    SingleHas(name, value);
    var i :| 0 <= i < |props| && props[i].key == name;
    assert NamedOutcomes(Single(name, value), schema, location, root, py)[i].Raised?;
  }

  lemma ExtraRaises(value: Json, name: string, schema: Json, location: Location, root: Json, py: Python)
    requires Belongs(schema, root, py) && !Has(DictAt(schema.fields, "properties"), name)
    requires var sub := AdditionalSchema(schema.fields);
             && sub.Some? && Belongs(sub.value, root, py)
             && Validate(value, sub.value, location + [Key(name)], root, py).Raised?
    ensures ValidateObject(Single(name, value), schema, location, root, py).Raised?
  {
    hide Validate;
    SingleHas(name, value);
    assert ExtraOutcomes(Single(name, value), schema, location, root, py)[0].Raised?;
  }

  lemma ItemRaises(value: Json, schema: Json, location: Location, root: Json, py: Python)
    requires Belongs(schema, root, py) && !WrongType(Arr([value]), schema.fields) && Has(schema.fields, "items")
    requires Belongs(Get(schema.fields, "items").value, root, py)
    requires Validate(value, Get(schema.fields, "items").value, location + [Index(0)], root, py).Raised?
    ensures Validate(Arr([value]), schema, location, root, py).Raised?
  {
    var whole := Arr([value]);
    var parts := seq(|whole.items|, i requires 0 <= i < |whole.items| =>
      ValidateItem(whole, i, schema, location, root, py));
    assert parts[0].Raised?;
    PartRaises(whole, schema, location, root, py);
  }

  /** A name longer than every name of an object is none of them. */
  lemma FreshName(d: Dict) returns (name: string)
    ensures !Has(d, name)
  {
    var n := 0;
    for i := 0 to |d|
      invariant n >= 0 && forall j :: 0 <= j < i ==> |d[j].key| < n
    {
      if |d[i].key| >= n { n := |d[i].key| + 1; }
    }
    name := seq(n, _ => 'x');
    assert forall i :: 0 <= i < |d| ==> d[i].key != name;
  }

  lemma SpotTakes(a: Spot, value: Json)
    requires TypeOf(value) == a.kind && a.schema.Obj?
    ensures Takes(a.schema, a.kind) <==> !WrongType(value, a.schema.fields)
  {
  }

  /** Where the walk comes to a schema that raises, some value of the type raises. */
  lemma {:induction false} ReachRaises(a: Spot, n: nat, location: Location, root: Json, py: Python) returns (v: Json)
    requires Belongs(a.schema, root, py) && Reaches(a, n, root, py)
    ensures TypeOf(v) == a.kind && Bare(v) && Validate(v, a.schema, location, root, py).Raised?
    decreases n, 1
  {
    hide Validate;
    hide Refers;
    hide Offers;
    hide Names;
    hide Holds;
    hide Bare;
    hide Belongs;
    hide CanRaise;
    if a.kind == "object" && CanRaise(a.schema) {
      v := Obj([]);
      EmptyIsBare();
      EmptyObjectRaises(a.schema, location, root, py);
    } else {
      var b :| Leads(a, b, root, py) && Reaches(b, n - 1, root, py);
      LeadsBelongs(a, b, root, py);
      LeadsKind(a, b, root, py);
      if Refers(a, b, root, py) || Offers(a, b) {
        v := ReachRaises(b, n - 1, location, root, py);
        SamePlaceRaises(v, a, b, location, root, py);
      } else if Holds(a, b) {
        var w := ReachRaises(b, n - 1, location + [Index(0)], root, py);
        v := Arr([w]);
        WrappedBare("", w);
        HeldRaises(w, a, b, location, root, py);
      } else {
        v := ReachProperty(a, b, n, location, root, py);
      }
    }
  }

  lemma EmptyIsBare()
    ensures Bare(Obj([]))
  {
  }

  lemma LeadsKind(a: Spot, b: Spot, root: Json, py: Python)
    ensures Refers(a, b, root, py) || Offers(a, b) ==> b.kind == a.kind
    ensures Holds(a, b) ==> a.kind == "array"
    ensures Names(a, b) ==> a.kind == "object"
  {
  }

  lemma HeldRaises(w: Json, a: Spot, b: Spot, location: Location, root: Json, py: Python)
    requires Belongs(a.schema, root, py) && Belongs(b.schema, root, py) && Holds(a, b)
    requires Validate(w, b.schema, location + [Index(0)], root, py).Raised?
    ensures Validate(Arr([w]), a.schema, location, root, py).Raised?
  {
    hide Validate;
    SpotTakes(a, Arr([w]));
    HasWhatItGets(a.schema.fields, "items");
    ItemRaises(w, a.schema, location, root, py);
  }

  lemma HasWhatItGets(d: Dict, key: string)
    ensures Get(d, key).Some? ==> Has(d, key)
  {
  }

  lemma SamePlaceRaises(v: Json, a: Spot, b: Spot, location: Location, root: Json, py: Python)
    requires Belongs(a.schema, root, py) && Belongs(b.schema, root, py) && TypeOf(v) == a.kind
    requires Refers(a, b, root, py) || Offers(a, b)
    requires Validate(v, b.schema, location, root, py).Raised?
    ensures Validate(v, a.schema, location, root, py).Raised?
  {
    hide Validate;
    if Refers(a, b, root, py) {
      ReferenceRaises(v, a.schema, location, root, py);
    } else {
      SpotTakes(a, v);
      AlternativeRaises(v, a.schema, b.schema, location, root, py);
    }
  }

  lemma {:induction false} ReachProperty(a: Spot, b: Spot, n: nat, location: Location, root: Json, py: Python)
    returns (v: Json)
    requires Belongs(a.schema, root, py) && Belongs(b.schema, root, py)
    requires n > 0 && Reaches(b, n - 1, root, py)
    requires Names(a, b)
    ensures TypeOf(v) == "object" && Bare(v) && Validate(v, a.schema, location, root, py).Raised?
    decreases n, 0
  {
    hide Validate;
    SpotTakes(a, Obj([]));
    var props := DictAt(a.schema.fields, "properties");
    var name;
    if AdditionalSchema(a.schema.fields) == Some(b.schema) {
      name := FreshName(props);
    } else {
      name :| Has(props, name) && Get(props, name).value == b.schema;
    }
    var w := ReachRaises(b, n - 1, location + [Key(name)], root, py);
    v := Single(name, w);
    WrappedBare(name, w);
    PropertyRaises(w, name, a.schema, location, root, py);
  }

  // ---- exactly when ----

  /** Validating against an accepted document raises on some value, and then on one of nothing
      but objects and arrays, exactly when a walk from its root comes to a schema that takes
      objects and requires a name that is a list or an object. */
  lemma RaisesExactlyWhen(root: Json, py: Python)
    requires Belongs(root, root, py)
    ensures (exists v :: Validate(v, root, [], root, py).Raised?) <==> !SafeDocument(root, py)
    ensures (exists v :: Bare(v) && Validate(v, root, [], root, py).Raised?) <==> !SafeDocument(root, py)
  {
    hide Validate;
    if SafeDocument(root, py) {
      forall v ensures Validate(v, root, [], root, py).Found? { SafeNeverRaises(v, root, [], root, py); }
    } else {
      var kind, n: nat :| Reaches(Spot(root, kind), n, root, py);
      var v := ReachRaises(Spot(root, kind), n, [], root, py);
    }
  }

  // ---- a condition on the document alone ----

  /** No schema written in the document takes objects and requires such a name. */
  ghost predicate NoneCanRaise(doc: Json)
  {
    forall s :: s in Docs(doc) ==> !CanRaise(s)
  }

  lemma LeadsIsDoc(a: Spot, b: Spot, root: Json, py: Python)
    requires a.schema in Docs(root) && Leads(a, b, root, py)
    ensures b.schema in Docs(root)
  {
    hide Docs;
    hide Resolve;
    hide Get;
    hide DictAt;
    DocsTransitive(a.schema, root);
    if Refers(a, b, root, py) {
    } else if Offers(a, b) {
      AlternativeIsDoc(a.schema, b.schema);
    } else if Holds(a, b) {
      GetIsDoc(a.schema.fields, "items");
    } else if AdditionalSchema(a.schema.fields) == Some(b.schema) {
      GetIsDoc(a.schema.fields, "additionalProperties");
    } else {
      var name :| Has(DictAt(a.schema.fields, "properties"), name)
                  && Get(DictAt(a.schema.fields, "properties"), name).value == b.schema;
      GetIsDoc(a.schema.fields, "properties");
      GetIsDoc(DictAt(a.schema.fields, "properties"), name);
    }
  }

  lemma {:induction false} NoneReached(a: Spot, n: nat, root: Json, py: Python)
    requires NoneCanRaise(root) && a.schema in Docs(root)
    ensures !Reaches(a, n, root, py)
    decreases n
  {
    hide CanRaise;
    hide Leads;
    hide Docs;
    if n > 0 {
      forall b | Leads(a, b, root, py) ensures !Reaches(b, n - 1, root, py) {
        LeadsIsDoc(a, b, root, py);
        NoneReached(b, n - 1, root, py);
      }
    }
  }

  /** With no such name written anywhere, every value gets a verdict. */
  lemma HashableNeverRaises(value: Json, root: Json, py: Python)
    requires Belongs(root, root, py) && NoneCanRaise(root)
    ensures SafeDocument(root, py) && Validate(value, root, [], root, py).Found?
  {
    hide Validate;
    forall kind ensures Safe(Spot(root, kind), root, py) {
      forall n: nat ensures !Reaches(Spot(root, kind), n, root, py) {
        assert root in Docs(root);
        NoneReached(Spot(root, kind), n, root, py);
      }
    }
    SafeNeverRaises(value, root, [], root, py);
  }

  /** The gate accepts {"required": [[]]}, and validating {} against it raises. */
  lemma UnhashableNameRaises(py: Python)
    ensures var root := Obj([Entry("required", Arr([Arr([])]))]);
            Belongs(root, root, py) && Validate(Obj([]), root, [], root, py).Raised?
  {
    var d := [Entry("required", Arr([Arr([])]))];
    var root := Obj(d);
    assert d[0].key in Keys(d);
    GetDistinct(d, 0);
    forall k | Has(d, k) ensures k == "required" {}
    assert SubSchemas(d) == [];
    assert KeywordsOk(d, py);
    assert Checked(root, {}, py);
    assert Closed({}, root, py);
    assert Explains(Meaning({}, map[]), root, py);
    CheckedGrows(root, {}, MeaningOf(root, py).known, py);
    assert ListAt(d, "required")[0] == Arr([]);
    RequiredRaises(ListAt(d, "required"), 0, [], []);
  }

  // ---- the entry point ----

  datatype Verdict = Refused(refusal: Refusal) | Validated(outcome: Outcome)

  /** Check the schema, then validate the value: a refusal exactly for the schemas that are
      not acceptable, and otherwise no errors exactly when the value satisfies the schema. */
  method ValidateAnswer(value: Json, root: Json, py: Python) returns (verdict: Verdict)
    requires WellFormed(value) && WellFormed(root)
    ensures verdict.Refused? <==> !Acceptable(root, py)
    ensures verdict.Validated? ==>
              && Belongs(root, root, py)
              && Agrees(verdict.outcome, Satisfies(value, root, root, py))
              && Located(verdict.outcome, value, [])
              && (verdict.outcome.Raised? ==> !SafeDocument(root, py))
  {
    var refusal := CheckSupported(root, py);
    if refusal.Some? {
      return Refused(refusal.value);
    }
    verdict := Validated(Validate(value, root, [], root, py));
    CleanMeansSatisfied(value, root, [], root, py);
    ErrorsAreLocated(value, root, [], root, py);
    if SafeDocument(root, py) { SafeNeverRaises(value, root, [], root, py); }
  }
}
