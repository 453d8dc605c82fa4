/** JSON values as Python's json module reads them: an object keeps its keys in the order
    written, and 1 and 1.0 are two representations of one number. */
module Json {
  import opened Wrappers

  datatype Json =
    | Null
    | Bool(b: bool)
    | Int(i: int)
    | Float(r: real)
    | Str(s: string)
    | Arr(items: seq<Json>)
    | Obj(fields: Dict)

  datatype Entry = Entry(key: string, value: Json)

  /** A Python dict: its items in insertion order. */
  type Dict = seq<Entry>

  function Keys(d: Dict): (r: set<string>)
  {
    set i | 0 <= i < |d| :: d[i].key
  }

  function Get(d: Dict, key: string): (r: Option<Json>)
    ensures r.Some? <==> key in Keys(d)
    ensures r.Some? ==> exists i :: 0 <= i < |d| && d[i] == Entry(key, r.value)
  {
    if d == [] then None
    else if d[0].key == key then
      assert d[0] == Entry(key, d[0].value);
      Some(d[0].value)
    else
      var rest := Get(d[1..], key);
      assert Keys(d) == {d[0].key} + Keys(d[1..]) by {
        forall k | k in Keys(d) ensures k in {d[0].key} + Keys(d[1..]) {
          var i :| 0 <= i < |d| && d[i].key == k;
          if i > 0 { assert d[1..][i - 1].key == k; }
        }
        forall k | k in Keys(d[1..]) ensures k in Keys(d) {
          var i :| 0 <= i < |d[1..]| && d[1..][i].key == k;
          assert d[i + 1].key == k;
        }
      }
      assert rest.Some? ==> exists i :: 0 <= i < |d| && d[i] == Entry(key, rest.value) by {
        if rest.Some? {
          var i :| 0 <= i < |d[1..]| && d[1..][i] == Entry(key, rest.value);
          assert d[i + 1] == Entry(key, rest.value);
        }
      }
      rest
  }

  function Has(d: Dict, key: string): bool
  {
    key in Keys(d)
  }

  ghost predicate DistinctKeys(d: Dict)
  {
    forall i, j :: 0 <= i < j < |d| ==> d[i].key != d[j].key
  }

  lemma GetDistinct(d: Dict, i: nat)
    requires i < |d| && DistinctKeys(d)
    ensures Get(d, d[i].key) == Some(d[i].value)
  {
  }

  // ---- size and sub-documents ----

  ghost function Size(j: Json): (n: nat)
    ensures n > 0
    decreases j, 1
  {
    match j
    case Arr(items) => 1 + SizeItems(items)
    case Obj(fields) => 1 + SizeFields(fields)
    case _ => 1
  }

  ghost function SizeItems(items: seq<Json>): nat
    decreases items, 0
  {
    if items == [] then 0 else Size(items[0]) + SizeItems(items[1..])
  }

  ghost function SizeFields(d: Dict): nat
    decreases d, 0
  {
    if d == [] then 0 else Size(d[0].value) + SizeFields(d[1..])
  }

  lemma ItemSmaller(items: seq<Json>, i: nat)
    requires i < |items|
    ensures Size(items[i]) <= SizeItems(items)
  {
    if i > 0 { ItemSmaller(items[1..], i - 1); }
  }

  lemma FieldSmaller(d: Dict, i: nat)
    requires i < |d|
    ensures Size(d[i].value) <= SizeFields(d)
  {
    if i > 0 { FieldSmaller(d[1..], i - 1); }
  }

  lemma GetSmaller(d: Dict, key: string)
    requires Has(d, key)
    ensures Size(Get(d, key).value) < Size(Obj(d))
  {
  }

  /** Every value written anywhere inside j, j included. */
  ghost function Docs(j: Json): (r: set<Json>)
    ensures j in r
    decreases j, 1
  {
    match j
    case Arr(items) => {j} + DocsItems(items)
    case Obj(fields) => {j} + DocsFields(fields)
    case _ => {j}
  }

  ghost function DocsItems(items: seq<Json>): set<Json>
    decreases items, 0
  {
    if items == [] then {} else Docs(items[0]) + DocsItems(items[1..])
  }

  ghost function DocsFields(d: Dict): set<Json>
    decreases d, 0
  {
    if d == [] then {} else Docs(d[0].value) + DocsFields(d[1..])
  }

  lemma ItemIsDoc(items: seq<Json>, i: nat)
    requires i < |items|
    ensures Docs(items[i]) <= DocsItems(items)
  {
    if i > 0 { ItemIsDoc(items[1..], i - 1); }
  }

  lemma FieldIsDoc(d: Dict, i: nat)
    requires i < |d|
    ensures Docs(d[i].value) <= DocsFields(d)
  {
    if i > 0 { FieldIsDoc(d[1..], i - 1); }
  }

  lemma GetIsDoc(d: Dict, key: string)
    requires Has(d, key)
    ensures Docs(Get(d, key).value) <= Docs(Obj(d))
  {
    var i :| 0 <= i < |d| && d[i] == Entry(key, Get(d, key).value);
    FieldIsDoc(d, i);
  }

  /** Being inside is transitive. */
  lemma {:induction false} DocsTransitive(a: Json, b: Json)
    requires a in Docs(b)
    ensures Docs(a) <= Docs(b)
    decreases b, 1
  {
    if a != b {
      match b
      case Arr(items) => DocsTransitiveItems(a, items);
      case Obj(fields) => DocsTransitiveFields(a, fields);
      case _ =>
    }
  }

  lemma {:induction false} DocsTransitiveItems(a: Json, items: seq<Json>)
    requires a in DocsItems(items)
    ensures Docs(a) <= DocsItems(items)
    decreases items, 0
  {
    if a in Docs(items[0]) { DocsTransitive(a, items[0]); } else { DocsTransitiveItems(a, items[1..]); }
  }

  lemma {:induction false} DocsTransitiveFields(a: Json, d: Dict)
    requires a in DocsFields(d)
    ensures Docs(a) <= DocsFields(d)
    decreases d, 0
  {
    if a in Docs(d[0].value) { DocsTransitive(a, d[0].value); } else { DocsTransitiveFields(a, d[1..]); }
  }

  /** No object anywhere in j repeats a key: what json.loads leaves in memory. */
  ghost predicate WellFormed(j: Json)
  {
    forall d :: d in Docs(j) && d.Obj? ==> DistinctKeys(d.fields)
  }

  // ---- equality ----

  predicate IsNumber(j: Json)
  {
    j.Int? || j.Float?
  }

  function NumberOf(j: Json): real
    requires IsNumber(j)
  {
    if j.Int? then j.i as real else j.r
  }

  /** JSON equality: numbers by value, arrays by position, objects by key whatever the
      order their keys were written in. A boolean is not a number. */
  ghost predicate Equal(a: Json, b: Json)
    decreases Size(a)
  {
    if IsNumber(a) || IsNumber(b) then IsNumber(a) && IsNumber(b) && NumberOf(a) == NumberOf(b)
    else if a.Arr? && b.Arr? then
      && |a.items| == |b.items|
      && forall i :: 0 <= i < |a.items| ==> (ItemSmaller(a.items, i); Equal(a.items[i], b.items[i]))
    else if a.Obj? && b.Obj? then
      && Keys(a.fields) == Keys(b.fields)
      && forall k :: k in Keys(a.fields) ==>
           (GetSmaller(a.fields, k); Equal(Get(a.fields, k).value, Get(b.fields, k).value))
    else a == b
  }

  /** The hashable form the validator compares values by. */
  datatype Canon =
    | CNull
    | CBoolean(b: bool)
    | CNumber(r: real)
    | CString(s: string)
    | CArray(items: seq<Canon>)
    | CObject(fields: set<(string, Canon)>)

  function Canonical(j: Json): Canon
    decreases j, 1
  {
    match j
    case Null => CNull
    case Bool(b) => CBoolean(b)
    case Int(i) => CNumber(i as real)
    case Float(r) => CNumber(r)
    case Str(s) => CString(s)
    case Arr(items) => CArray(CanonicalItems(items))
    case Obj(fields) => CObject(CanonicalFields(fields))
  }

  function CanonicalItems(items: seq<Json>): (r: seq<Canon>)
    ensures |r| == |items|
    ensures forall i :: 0 <= i < |items| ==> r[i] == Canonical(items[i])
    decreases items, 0
  {
    if items == [] then [] else [Canonical(items[0])] + CanonicalItems(items[1..])
  }

  function CanonicalFields(d: Dict): (r: set<(string, Canon)>)
    decreases d, 0
  {
    if d == [] then {} else {(d[0].key, Canonical(d[0].value))} + CanonicalFields(d[1..])
  }

  /** With distinct keys, the canonical fields hold exactly (k, form of d[k]). */
  lemma CanonicalFieldsOf(d: Dict, k: string, c: Canon)
    requires DistinctKeys(d)
    ensures (k, c) in CanonicalFields(d) <==> Has(d, k) && c == Canonical(Get(d, k).value)
  {
  }

  /** Two values have one canonical form exactly when JSON calls them equal. */
  lemma {:induction false} CanonicalIffEqual(a: Json, b: Json)
    requires WellFormed(a) && WellFormed(b)
    ensures Canonical(a) == Canonical(b) <==> Equal(a, b)
    decreases Size(a)
  {
    if a.Arr? && b.Arr? {
      if |a.items| == |b.items| {
        forall i | 0 <= i < |a.items|
          ensures Canonical(a.items[i]) == Canonical(b.items[i]) <==> Equal(a.items[i], b.items[i])
        {
          ItemSmaller(a.items, i);
          ItemIsDoc(a.items, i);
          ItemIsDoc(b.items, i);
          CanonicalIffEqual(a.items[i], b.items[i]);
        }
        if forall i :: 0 <= i < |a.items| ==> Canonical(a.items[i]) == Canonical(b.items[i]) {
          assert CanonicalItems(a.items) == CanonicalItems(b.items);
        }
      }
    } else if a.Obj? && b.Obj? {
      CanonicalIffEqualObjects(a, b);
    }
  }

  lemma {:induction false} CanonicalIffEqualObjects(a: Json, b: Json)
    requires a.Obj? && b.Obj? && WellFormed(a) && WellFormed(b)
    ensures Canonical(a) == Canonical(b) <==> Equal(a, b)
    decreases Size(a), 0
  {
    var x, y := a.fields, b.fields;
    assert DistinctKeys(x) && DistinctKeys(y);
    forall k | Has(x, k) && Has(y, k)
      ensures Canonical(Get(x, k).value) == Canonical(Get(y, k).value) <==> Equal(Get(x, k).value, Get(y, k).value)
    {
      GetSmaller(x, k);
      GetIsDoc(x, k);
      GetIsDoc(y, k);
      CanonicalIffEqual(Get(x, k).value, Get(y, k).value);
    }
    forall k, c ensures (k, c) in CanonicalFields(x) <==> Has(x, k) && c == Canonical(Get(x, k).value) {
      CanonicalFieldsOf(x, k, c);
    }
    forall k, c ensures (k, c) in CanonicalFields(y) <==> Has(y, k) && c == Canonical(Get(y, k).value) {
      CanonicalFieldsOf(y, k, c);
    }
    if Canonical(a) == Canonical(b) {
      forall k | k in Keys(x) ensures k in Keys(y) && Canonical(Get(x, k).value) == Canonical(Get(y, k).value) {
        assert (k, Canonical(Get(x, k).value)) in CanonicalFields(x);
      }
      forall k | k in Keys(y) ensures k in Keys(x) {
        assert (k, Canonical(Get(y, k).value)) in CanonicalFields(y);
      }
    }
    if Equal(a, b) {
      forall p | p in CanonicalFields(x) ensures p in CanonicalFields(y) {
        var (k, c) := p;
        assert (k, c) in CanonicalFields(x);
      }
      forall p | p in CanonicalFields(y) ensures p in CanonicalFields(x) {
        var (k, c) := p;
        assert (k, c) in CanonicalFields(y);
      }
    }
  }
}
