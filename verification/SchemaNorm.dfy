/** What equality on parsed JSON decides, and with it what drift reports. */
module SchemaNorm {
  import opened Options
  import opened SchemaDrift

  // Two values are equal exactly when they have one normal form, and the normal
  // form forgets nothing but the order of keys and the difference between a
  // boolean and the number it stands for.

  datatype Norm =
    | Nothing
    | Number(value: real)
    | Word(text: string)
    | List(values: seq<Norm>)
    | Dict(fields: map<string, Norm>)

  function NormOf(j: Json): Norm {
    match j
    case Null => Nothing
    case Bool(b) => Number(if b then 1.0 else 0.0)
    case Num(n) => Number(n)
    case Str(s) => Word(s)
    case Arr(items) => List(NormItems(items))
    case Obj(fields) => Dict(NormFields(fields))
  }

  function NormItems(items: Items): seq<Norm> {
    match items
    case NoItems => []
    case Item(head, tail) => [NormOf(head)] + NormItems(tail)
  }

  function NormFields(f: Fields): map<string, Norm> {
    match f
    case NoFields => map[]
    case Field(key, value, rest) => NormFields(rest)[key := NormOf(value)]
  }

  lemma {:induction false} NormLookup(f: Fields, key: string)
    ensures key in NormFields(f) <==> Lookup(f, key).Some?
    ensures key in NormFields(f) ==> NormFields(f)[key] == NormOf(Lookup(f, key).value)
  {
    if f.Field? {
      NormLookup(f.rest, key);
    }
  }

  lemma {:induction false} NormCount(f: Fields)
    requires FieldsWellFormed(f)
    ensures |NormFields(f)| == Count(f)
  {
    if f.Field? {
      NormCount(f.rest);
      NormLookup(f.rest, f.key);
      assert NormFields(f).Keys == NormFields(f.rest).Keys + {f.key};
    }
  }

  lemma {:induction false} LookupWellFormed(f: Fields, key: string)
    requires FieldsWellFormed(f) && Lookup(f, key).Some?
    ensures WellFormed(Lookup(f, key).value)
  {
    if f.key != key {
      LookupWellFormed(f.rest, key);
    }
  }

  /** Every field of the one is in the other, with the same value. */
  ghost predicate Inside(a: map<string, Norm>, b: map<string, Norm>) {
    forall key :: key in a ==> key in b && b[key] == a[key]
  }

  lemma SameSize(a: set<string>, b: set<string>)
    requires a <= b && |a| == |b|
    ensures a == b
  {
    assert |b - a| == |b| - |a|;
    assert b == a + (b - a);
  }

  /** Equality is having one normal form: strings are equal exactly as texts,
      numbers and booleans exactly by value, null only to null, lists element by
      element, and objects exactly when they have the same keys with equal values. */
  lemma {:induction false} EqualIffNorm(a: Json, b: Json)
    requires WellFormed(a) && WellFormed(b)
    ensures PyEq(a, b) <==> NormOf(a) == NormOf(b)
    decreases a
  {
    match a
    case Arr(items) =>
      if b.Arr? {
        ItemsEqualIff(items, b.items);
      }
    case Obj(fields) =>
      if b.Obj? {
        ObjectsEqualIff(fields, b.fields);
      }
    case _ =>
  }

  lemma {:induction false} ItemsEqualIff(a: Items, b: Items)
    requires ItemsWellFormed(a) && ItemsWellFormed(b)
    ensures ItemsEq(a, b) <==> NormItems(a) == NormItems(b)
    decreases a
  {
    if a.Item? && b.Item? {
      EqualIffNorm(a.head, b.head);
      ItemsEqualIff(a.tail, b.tail);
      var na, nb := NormItems(a), NormItems(b);
      assert na[0] == NormOf(a.head) && na[1..] == NormItems(a.tail);
      assert nb[0] == NormOf(b.head) && nb[1..] == NormItems(b.tail);
    }
  }

  lemma ObjectsEqualIff(a: Fields, b: Fields)
    requires FieldsWellFormed(a) && FieldsWellFormed(b)
    ensures Count(a) == Count(b) && FieldsEq(a, b) <==> NormFields(a) == NormFields(b)
    decreases a, 1
  {
    FieldsEqualIff(a, b);
    NormCount(a);
    NormCount(b);
    var na, nb := NormFields(a), NormFields(b);
    assert |na.Keys| == |na| && |nb.Keys| == |nb|;
    if Inside(na, nb) && |na| == |nb| {
      SameSize(na.Keys, nb.Keys);
      assert na == nb;
    }
  }

  lemma {:induction false} FieldsEqualIff(a: Fields, b: Fields)
    requires FieldsWellFormed(a) && FieldsWellFormed(b)
    ensures FieldsEq(a, b) <==> Inside(NormFields(a), NormFields(b))
    decreases a, 0
  {
    if a.Field? {
      FieldsEqualIff(a.rest, b);
      NormLookup(a.rest, a.key);
      NormLookup(b, a.key);
      if Lookup(b, a.key).Some? {
        LookupWellFormed(b, a.key);
        EqualIffNorm(a.value, Lookup(b, a.key).value);
      }
      InsideCons(NormFields(a.rest), a.key, NormOf(a.value), NormFields(b));
    }
  }

  lemma InsideCons(a: map<string, Norm>, key: string, value: Norm, b: map<string, Norm>)
    requires key !in a
    ensures Inside(a[key := value], b) <==> key in b && b[key] == value && Inside(a, b)
  {
    var more := a[key := value];
    if Inside(more, b) {
      assert key in more;
      forall k | k in a
        ensures k in b && b[k] == a[k]
      {
        assert k in more && more[k] == a[k];
      }
    }
  }

  // ---- What is missing from a list ----

  lemma {:induction false} InItemsIff(v: Json, items: Items)
    requires WellFormed(v) && ItemsWellFormed(items)
    ensures InItems(v, items) <==> NormOf(v) in NormItems(items)
  {
    if items.Item? {
      EqualIffNorm(v, items.head);
      InItemsIff(v, items.tail);
    }
  }

  /** Every one of `values` is there. */
  ghost predicate Holds(list: seq<Norm>, values: seq<Norm>) {
    forall n :: n in values ==> n in list
  }

  lemma {:induction false} AllInIff(items: Items, others: Items)
    requires ItemsWellFormed(items) && ItemsWellFormed(others)
    ensures AllIn(items, others) <==> Holds(NormItems(others), NormItems(items))
  {
    if items.Item? {
      InItemsIff(items.head, others);
      AllInIff(items.tail, others);
    }
  }

  /** The values a list lacks: those of the other list whose normal form it does not
      have, in their order. */
  lemma {:induction false} MissingMeans(items: Items, others: Items)
    requires ItemsWellFormed(items) && ItemsWellFormed(others)
    ensures NormItems(Missing(items, others)) == Filter(n => n !in NormItems(others), NormItems(items))
  {
    if items.Item? {
      InItemsIff(items.head, others);
      MissingMeans(items.tail, others);
      var all := NormItems(items);
      assert all[0] == NormOf(items.head) && all[1..] == NormItems(items.tail);
    }
  }

  // ---- What is reported ----

  /** `y` does not carry what `x` says: another kind of value where `x` is an object
      or a list, a list without one of the values of `x`, or another scalar. */
  ghost predicate Differs(x: Json, y: Json) {
    match x
    case Obj(_) => !y.Obj?
    case Arr(items) => !y.Arr? || !Holds(NormItems(y.items), NormItems(items))
    case _ => NormOf(x) != NormOf(y)
  }

  /** Both trees have a value at `path` and they differ, or the vendored object that
      should have it lacks the last key. */
  ghost predicate Drifts(canonical: Json, vendored: Json, path: seq<string>) {
    "description" !in path && At(canonical, path).Some? &&
    (if At(vendored, path).Some? then Differs(At(canonical, path).value, At(vendored, path).value)
     else path != [] && At(vendored, path[..|path| - 1]).Some? && At(vendored, path[..|path| - 1]).value.Obj?)
  }

  ghost predicate NowhereDrifts(canonical: Json, vendored: Json) {
    forall path :: !Drifts(canonical, vendored, path)
  }

  lemma {:induction false} AtWellFormed(j: Json, path: seq<string>)
    requires WellFormed(j) && At(j, path).Some?
    ensures WellFormed(At(j, path).value)
    decreases |path|
  {
    if path != [] {
      LookupWellFormed(j.fields, path[0]);
      AtWellFormed(Lookup(j.fields, path[0]).value, path[1..]);
    }
  }

  lemma DiffersIff(x: Json, y: Json)
    requires WellFormed(x) && WellFormed(y)
    ensures Mismatch(x, y) <==> Differs(x, y)
  {
    if x.Arr? && y.Arr? {
      AllInIff(x.items, y.items);
    } else if !x.Arr? && !x.Obj? {
      EqualIffNorm(x, y);
    }
  }

  /** A path is reported exactly when the two trees drift apart there; so a changed
      scalar is reported at its path, exactly when its normal form has changed. */
  lemma ReportedMeans(canonical: Json, vendored: Json, path: seq<string>, sub: seq<string>)
    requires WellFormed(canonical) && WellFormed(vendored)
    ensures Reported(Drift(canonical, vendored, path), path + sub) <==> Drifts(canonical, vendored, sub)
  {
    ReportedIff(canonical, vendored, path, sub);
    if At(canonical, sub).Some? && At(vendored, sub).Some? {
      AtWellFormed(canonical, sub);
      AtWellFormed(vendored, sub);
      DiffersIff(At(canonical, sub).value, At(vendored, sub).value);
    }
  }

  /** And nothing is reported exactly when they drift apart nowhere. */
  lemma NoDriftMeans(canonical: Json, vendored: Json, path: seq<string>)
    requires WellFormed(canonical) && WellFormed(vendored)
    ensures Drift(canonical, vendored, path) == [] <==> NowhereDrifts(canonical, vendored)
  {
    var problems := Drift(canonical, vendored, path);
    if problems == [] {
      forall sub
        ensures !Drifts(canonical, vendored, sub)
      {
        ReportedMeans(canonical, vendored, path, sub);
      }
    } else {
      ReportsAreBelow(canonical, vendored, path);
      var sub := problems[0].path[|path|..];
      assert path <= problems[0].path && path + sub == problems[0].path;
      ReportedMeans(canonical, vendored, path, sub);
      assert Reported(problems, path + sub) && Drifts(canonical, vendored, sub);
    }
  }

  // ---- What the report says ----

  /** What is wrong where the canonical tree has `x` and the vendored one `y`. */
  ghost predicate Explains(fault: Fault, x: Json, y: Option<Json>) {
    match fault
    case MissingKey => y.None?
    case NotAnObject => y.Some? && x.Obj? && !y.value.Obj?
    case NotAList => y.Some? && x.Arr? && !y.value.Arr?
    case MissingValues(values) =>
      y.Some? && x.Arr? && y.value.Arr? && values != NoItems &&
      NormItems(values) == Filter(n => n !in NormItems(y.value.items), NormItems(x.items))
    case Different => y.Some? && !x.Obj? && !x.Arr? && NormOf(x) != NormOf(y.value)
  }

  ghost predicate Explained(p: Problem, canonical: Json, vendored: Json, path: seq<string>) {
    path <= p.path && At(canonical, p.path[|path|..]).Some? &&
    Explains(p.fault, At(canonical, p.path[|path|..]).value, At(vendored, p.path[|path|..]))
  }

  ghost predicate AllExplained(ps: seq<Problem>, canonical: Json, vendored: Json, path: seq<string>) {
    forall i :: 0 <= i < |ps| ==> Explained(ps[i], canonical, vendored, path)
  }

  /** Every problem says what is wrong at its path: a key that is missing, an object
      or a list that is none, exactly the values that are missing, or a scalar
      that is different. */
  lemma {:induction false} FaultsExplained(canonical: Json, vendored: Json, path: seq<string>)
    requires WellFormed(canonical) && WellFormed(vendored)
    ensures AllExplained(Drift(canonical, vendored, path), canonical, vendored, path)
    decreases canonical, 0
  {
    if canonical.Obj? && vendored.Obj? {
      WithinItself(canonical.fields);
      FieldFaultsExplained(canonical.fields, canonical.fields, vendored.fields, path);
    } else if canonical.Arr? && vendored.Arr? {
      MissingMeans(canonical.items, vendored.items);
    } else if !canonical.Obj? && !canonical.Arr? {
      EqualIffNorm(canonical, vendored);
    }
  }

  lemma {:induction false} FieldFaultsExplained(part: Fields, f: Fields, vendored: Fields, path: seq<string>)
    requires FieldsWellFormed(part) && FieldsWellFormed(vendored) && Within(part, f)
    ensures AllExplained(DriftFields(part, vendored, path), Obj(f), Obj(vendored), path)
    decreases part, 0
  {
    if part.Field? {
      FieldFaultsExplained(part.rest, f, vendored, path);
      KeyFaultsExplained(part.key, part.value, f, vendored, path);
    }
  }

  lemma KeyFaultsExplained(key: string, value: Json, f: Fields, vendored: Fields, path: seq<string>)
    requires WellFormed(value) && FieldsWellFormed(vendored) && Lookup(f, key) == Some(value)
    ensures AllExplained(FieldDrift(key, value, vendored, path), Obj(f), Obj(vendored), path)
    decreases value, 1
  {
    if key != "description" {
      if Lookup(vendored, key).Some? {
        var y := Lookup(vendored, key).value;
        LookupWellFormed(vendored, key);
        FaultsExplained(value, y, path + [key]);
        forall i | 0 <= i < |Drift(value, y, path + [key])|
          ensures Explained(Drift(value, y, path + [key])[i], Obj(f), Obj(vendored), path)
        {
          ExplainedBelow(Drift(value, y, path + [key])[i], key, value, y, f, vendored, path);
        }
      } else {
        assert (path + [key])[|path|..] == [key] && [key][1..] == [];
        assert At(Obj(f), [key]) == Some(value) && At(Obj(vendored), [key]) == None;
      }
    }
  }

  lemma ExplainedBelow(p: Problem, key: string, value: Json, y: Json, f: Fields, vendored: Fields, path: seq<string>)
    requires Explained(p, value, y, path + [key])
    requires Lookup(f, key) == Some(value) && Lookup(vendored, key) == Some(y)
    ensures Explained(p, Obj(f), Obj(vendored), path)
  {
    assert path <= path + [key] <= p.path;
    var sub := p.path[|path|..];
    assert p.path[|path|] == (path + [key])[|path|];
    assert sub[0] == key && sub[1..] == p.path[|path + [key]|..];
  }
}
