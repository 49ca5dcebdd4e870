/** `check_drift`: whether a vendored JSON document still carries everything the
    canonical one has. */
module SchemaDrift {
  import opened Options

  datatype Json =
    | Null
    | Bool(b: bool)
    | Num(n: real)
    | Str(s: string)
    | Arr(items: Items)
    | Obj(fields: Fields)

  datatype Items = NoItems | Item(head: Json, tail: Items)

  /** The fields of an object in insertion order. */
  datatype Fields = NoFields | Field(key: string, value: Json, rest: Fields)

  function Lookup(f: Fields, key: string): Option<Json> {
    match f
    case NoFields => None
    case Field(k, v, rest) => if k == key then Some(v) else Lookup(rest, key)
  }

  function Count(f: Fields): nat {
    if f.NoFields? then 0 else 1 + Count(f.rest)
  }

  /** Keys are unique in every object, as they are in a Python dict. */
  predicate WellFormed(j: Json) {
    match j
    case Arr(items) => ItemsWellFormed(items)
    case Obj(fields) => FieldsWellFormed(fields)
    case _ => true
  }

  predicate ItemsWellFormed(items: Items) {
    items.NoItems? || (WellFormed(items.head) && ItemsWellFormed(items.tail))
  }

  predicate FieldsWellFormed(f: Fields) {
    f.NoFields? || (Lookup(f.rest, f.key).None? && WellFormed(f.value) && FieldsWellFormed(f.rest))
  }

  // ---- Python's equality ----

  predicate IsNumber(j: Json) {
    j.Bool? || j.Num?
  }

  /** `True == 1 == 1.0` */
  function NumberOf(j: Json): real
    requires IsNumber(j)
  {
    if j.Num? then j.n else if j.b then 1.0 else 0.0
  }

  /** `==` on parsed JSON: numbers by value, objects whatever their order. */
  predicate PyEq(a: Json, b: Json) {
    match a
    case Arr(items) => b.Arr? && ItemsEq(items, b.items)
    case Obj(fields) => b.Obj? && Count(fields) == Count(b.fields) && FieldsEq(fields, b.fields)
    case Str(s) => b == a
    case Null => b == a
    case _ => IsNumber(b) && NumberOf(a) == NumberOf(b)
  }

  predicate ItemsEq(a: Items, b: Items) {
    match a
    case NoItems => b.NoItems?
    case Item(head, tail) => b.Item? && PyEq(head, b.head) && ItemsEq(tail, b.tail)
  }

  predicate FieldsEq(a: Fields, b: Fields) {
    match a
    case NoFields => true
    case Field(k, v, rest) => Lookup(b, k).Some? && PyEq(v, Lookup(b, k).value) && FieldsEq(rest, b)
  }

  /** `v in items` */
  predicate InItems(v: Json, items: Items) {
    items.Item? && (PyEq(v, items.head) || InItems(v, items.tail))
  }

  /** `[v for v in items if v not in others]` */
  function Missing(items: Items, others: Items): Items {
    match items
    case NoItems => NoItems
    case Item(head, tail) => if InItems(head, others) then Missing(tail, others) else Item(head, Missing(tail, others))
  }

  // ---- Drift ----

  datatype Fault = NotAnObject | NotAList | MissingKey | MissingValues(values: Items) | Different

  datatype Problem = Problem(path: seq<string>, fault: Fault)

  function Drift(canonical: Json, vendored: Json, path: seq<string>): seq<Problem>
    decreases canonical, 0
  {
    match canonical
    case Obj(fields) =>
      if !vendored.Obj? then [Problem(path, NotAnObject)] else DriftFields(fields, vendored.fields, path)
    case Arr(items) =>
      if !vendored.Arr? then [Problem(path, NotAList)]
      else if Missing(items, vendored.items) != NoItems then [Problem(path, MissingValues(Missing(items,
          vendored.items)))]
      else []
    case _ => if !PyEq(canonical, vendored) then [Problem(path, Different)] else []
  }

  function FieldDrift(key: string, value: Json, vendored: Fields, path: seq<string>): seq<Problem>
    decreases value, 1
  {
    if key == "description" then []
    else if Lookup(vendored, key).None? then [Problem(path + [key], MissingKey)]
    else Drift(value, Lookup(vendored, key).value, path + [key])
  }

  function DriftFields(f: Fields, vendored: Fields, path: seq<string>): seq<Problem>
    decreases f, 0
  {
    match f
    case NoFields => []
    case Field(k, v, rest) => FieldDrift(k, v, vendored, path) + DriftFields(rest, vendored, path)
  }

  method CheckDrift(canonical: Json, vendored: Json, path: seq<string>) returns (problems: seq<Problem>)
    ensures problems == Drift(canonical, vendored, path)
    decreases canonical
  {
    problems := [];
    if canonical.Obj? {
      if !vendored.Obj? {
        return [Problem(path, NotAnObject)];
      }
      var todo := canonical.fields;
      while todo.Field?
        invariant problems + DriftFields(todo, vendored.fields, path) == Drift(canonical, vendored, path)
        invariant todo.Field? ==> todo.value < canonical
        invariant todo == canonical.fields || todo < canonical.fields
        decreases todo
      {
        var key := todo.key;
        if key != "description" {
          var other := Lookup(vendored.fields, key);
          if other.None? {
            problems := problems + [Problem(path + [key], MissingKey)];
          } else {
            var below := CheckDrift(todo.value, other.value, path + [key]);
            problems := problems + below;
          }
        }
        todo := todo.rest;
      }
    } else if canonical.Arr? {
      if !vendored.Arr? {
        return [Problem(path, NotAList)];
      }
      var missing := Missing(canonical.items, vendored.items);
      if missing != NoItems {
        problems := problems + [Problem(path, MissingValues(missing))];
      }
    } else if !PyEq(canonical, vendored) {
      problems := problems + [Problem(path, Different)];
    }
  }

  // ---- The relation behind it ----

  /** Every item of `items` is in `others`. */
  predicate AllIn(items: Items, others: Items) {
    items.NoItems? || (InItems(items.head, others) && AllIn(items.tail, others))
  }

  /** `v` has everything `c` has: every key but descriptions, every list value,
      and the same scalars. */
  predicate Extends(v: Json, c: Json)
    decreases c
  {
    match c
    case Obj(fields) => v.Obj? && ExtendsFields(v.fields, fields)
    case Arr(items) => v.Arr? && AllIn(items, v.items)
    case _ => PyEq(c, v)
  }

  predicate ExtendsFields(vf: Fields, cf: Fields)
    decreases cf
  {
    match cf
    case NoFields => true
    case Field(k, c, rest) =>
      (k == "description" || (Lookup(vf, k).Some? && Extends(Lookup(vf, k).value, c))) && ExtendsFields(vf, rest)
  }

  lemma {:induction false} NoneMissing(items: Items, others: Items)
    ensures Missing(items, others) == NoItems <==> AllIn(items, others)
  {
    if items.Item? {
      NoneMissing(items.tail, others);
    }
  }

  /** Nothing is reported exactly when the vendored tree extends the canonical
      one. */
  lemma {:induction false} NoDriftIff(canonical: Json, vendored: Json, path: seq<string>)
    ensures Drift(canonical, vendored, path) == [] <==> Extends(vendored, canonical)
    decreases canonical
  {
    match canonical
    case Obj(fields) =>
      if vendored.Obj? {
        NoFieldDriftIff(fields, vendored.fields, path);
      }
    case Arr(items) =>
      if vendored.Arr? {
        NoneMissing(items, vendored.items);
      }
    case _ =>
  }

  lemma {:induction false} NoFieldDriftIff(f: Fields, vendored: Fields, path: seq<string>)
    ensures DriftFields(f, vendored, path) == [] <==> ExtendsFields(vendored, f)
    decreases f
  {
    if f.Field? {
      NoFieldDriftIff(f.rest, vendored, path);
      if Lookup(vendored, f.key).Some? {
        NoDriftIff(f.value, Lookup(vendored, f.key).value, path + [f.key]);
      }
    }
  }

  // ---- Equality is an equivalence as far as it has to be ----

  lemma {:induction false} EqAt(a: Fields, b: Fields, key: string)
    requires FieldsEq(a, b) && Lookup(a, key).Some?
    ensures Lookup(b, key).Some? && PyEq(Lookup(a, key).value, Lookup(b, key).value)
  {
    if a.key != key {
      EqAt(a.rest, b, key);
    }
  }

  lemma {:induction false} PyEqTransitive(a: Json, b: Json, c: Json)
    requires PyEq(a, b) && PyEq(b, c)
    ensures PyEq(a, c)
    decreases a
  {
    match a
    case Arr(items) => ItemsEqTransitive(items, b.items, c.items);
    case Obj(fields) => FieldsEqTransitive(fields, b.fields, c.fields);
    case _ =>
  }

  lemma {:induction false} ItemsEqTransitive(a: Items, b: Items, c: Items)
    requires ItemsEq(a, b) && ItemsEq(b, c)
    ensures ItemsEq(a, c)
    decreases a
  {
    if a.Item? {
      PyEqTransitive(a.head, b.head, c.head);
      ItemsEqTransitive(a.tail, b.tail, c.tail);
    }
  }

  lemma {:induction false} FieldsEqTransitive(a: Fields, b: Fields, c: Fields)
    requires FieldsEq(a, b) && FieldsEq(b, c)
    ensures FieldsEq(a, c)
    decreases a
  {
    if a.Field? {
      EqAt(b, c, a.key);
      PyEqTransitive(a.value, Lookup(b, a.key).value, Lookup(c, a.key).value);
      FieldsEqTransitive(a.rest, b, c);
    }
  }

  /** Every field of `part` is a field of `f`. */
  predicate Within(part: Fields, f: Fields) {
    part.NoFields? || (Lookup(f, part.key) == Some(part.value) && Within(part.rest, f))
  }

  lemma {:induction false} WithinCons(part: Fields, key: string, value: Json, f: Fields)
    requires Within(part, f) && Lookup(part, key).None?
    ensures Within(part, Field(key, value, f))
  {
    if part.Field? {
      WithinCons(part.rest, key, value, f);
    }
  }

  lemma {:induction false} WithinItself(f: Fields)
    requires FieldsWellFormed(f)
    ensures Within(f, f)
  {
    if f.Field? {
      WithinItself(f.rest);
      WithinCons(f.rest, f.key, f.value, f.rest);
    }
  }

  lemma {:induction false} PyEqReflexive(a: Json)
    requires WellFormed(a)
    ensures PyEq(a, a)
  {
    match a
    case Arr(items) => ItemsEqReflexive(items);
    case Obj(fields) =>
      WithinItself(fields);
      FieldsEqReflexive(fields, fields);
    case _ =>
  }

  lemma {:induction false} ItemsEqReflexive(a: Items)
    requires ItemsWellFormed(a)
    ensures ItemsEq(a, a)
  {
    if a.Item? {
      PyEqReflexive(a.head);
      ItemsEqReflexive(a.tail);
    }
  }

  lemma {:induction false} FieldsEqReflexive(part: Fields, f: Fields)
    requires FieldsWellFormed(part) && Within(part, f)
    ensures FieldsEq(part, f)
    decreases part
  {
    if part.Field? {
      PyEqReflexive(part.value);
      FieldsEqReflexive(part.rest, f);
    }
  }

  // ---- Extension is a preorder ----

  lemma {:induction false} AllInCons(part: Items, head: Json, tail: Items)
    requires AllIn(part, tail)
    ensures AllIn(part, Item(head, tail))
  {
    if part.Item? {
      AllInCons(part.tail, head, tail);
    }
  }

  lemma {:induction false} AllInItself(items: Items)
    requires ItemsWellFormed(items)
    ensures AllIn(items, items)
  {
    if items.Item? {
      PyEqReflexive(items.head);
      AllInItself(items.tail);
      AllInCons(items.tail, items.head, items.tail);
    }
  }

  lemma {:induction false} ExtendsReflexive(j: Json)
    requires WellFormed(j)
    ensures Extends(j, j)
  {
    match j
    case Obj(fields) =>
      WithinItself(fields);
      ExtendsFieldsReflexive(fields, fields);
    case Arr(items) => AllInItself(items);
    case _ =>
  }

  lemma {:induction false} ExtendsFieldsReflexive(part: Fields, f: Fields)
    requires FieldsWellFormed(part) && Within(part, f)
    ensures ExtendsFields(f, part)
    decreases part
  {
    if part.Field? {
      ExtendsReflexive(part.value);
      ExtendsFieldsReflexive(part.rest, f);
    }
  }

  lemma {:induction false} InItemsTransitive(v: Json, a: Items, b: Items)
    requires InItems(v, a) && AllIn(a, b)
    ensures InItems(v, b)
  {
    if PyEq(v, a.head) {
      EqualIsIn(v, a.head, b);
    } else {
      InItemsTransitive(v, a.tail, b);
    }
  }

  lemma {:induction false} EqualIsIn(v: Json, w: Json, items: Items)
    requires PyEq(v, w) && InItems(w, items)
    ensures InItems(v, items)
  {
    if PyEq(w, items.head) {
      PyEqTransitive(v, w, items.head);
    } else {
      EqualIsIn(v, w, items.tail);
    }
  }

  lemma {:induction false} AllInTransitive(a: Items, b: Items, c: Items)
    requires AllIn(a, b) && AllIn(b, c)
    ensures AllIn(a, c)
  {
    if a.Item? {
      InItemsTransitive(a.head, b, c);
      AllInTransitive(a.tail, b, c);
    }
  }

  lemma {:induction false} ExtendsAt(vf: Fields, cf: Fields, key: string)
    requires ExtendsFields(vf, cf) && Lookup(cf, key).Some? && key != "description"
    ensures Lookup(vf, key).Some? && Extends(Lookup(vf, key).value, Lookup(cf, key).value)
  {
    if cf.key != key {
      ExtendsAt(vf, cf.rest, key);
    }
  }

  /** A copy of a copy that carries everything carries everything, over all
      trees. */
  lemma {:induction false} ExtendsTransitive(a: Json, b: Json, c: Json)
    requires Extends(b, a) && Extends(c, b)
    ensures Extends(c, a)
    decreases a
  {
    match a
    case Obj(fields) => ExtendsFieldsTransitive(fields, b.fields, c.fields);
    case Arr(items) => AllInTransitive(items, b.items, c.items);
    case _ => PyEqTransitive(a, b, c);
  }

  lemma {:induction false} ExtendsFieldsTransitive(a: Fields, b: Fields, c: Fields)
    requires ExtendsFields(b, a) && ExtendsFields(c, b)
    ensures ExtendsFields(c, a)
    decreases a
  {
    if a.Field? {
      ExtendsFieldsTransitive(a.rest, b, c);
      if a.key != "description" {
        ExtendsAt(c, b, a.key);
        ExtendsTransitive(a.value, Lookup(b, a.key).value, Lookup(c, a.key).value);
      }
    }
  }

  // ---- Every report is a violation, and every violation is reported ----

  /** The value at `path`, going from key to key. */
  function At(j: Json, path: seq<string>): Option<Json>
    decreases |path|
  {
    if path == [] then Some(j)
    else if !j.Obj? || Lookup(j.fields, path[0]).None? then None
    else At(Lookup(j.fields, path[0]).value, path[1..])
  }

  /** `y` cannot stand for `x`, without looking into objects. */
  predicate Mismatch(x: Json, y: Json) {
    match x
    case Obj(_) => !y.Obj?
    case Arr(items) => !y.Arr? || !AllIn(items, y.items)
    case _ => !PyEq(x, y)
  }

  /** At `path`, below no description, the canonical tree has a value that the
      vendored tree has not, or has something else for. */
  predicate Violation(canonical: Json, vendored: Json, path: seq<string>) {
    "description" !in path && At(canonical, path).Some? &&
    (if At(vendored, path).Some? then Mismatch(At(canonical, path).value, At(vendored, path).value)
     else path != [] && At(vendored, path[..|path| - 1]).Some? && At(vendored, path[..|path| - 1]).value.Obj?)
  }

  predicate Reported(problems: seq<Problem>, path: seq<string>) {
    exists i :: 0 <= i < |problems| && problems[i].path == path
  }

  lemma ReportedConcat(a: seq<Problem>, b: seq<Problem>, path: seq<string>)
    ensures Reported(a + b, path) <==> Reported(a, path) || Reported(b, path)
  {
    if i :| 0 <= i < |a| && a[i].path == path {
      assert (a + b)[i].path == path;
    }
    if i :| 0 <= i < |b| && b[i].path == path {
      assert (a + b)[|a| + i].path == path;
    }
  }

  /** What the search below one key sees of a violation. */
  predicate FieldViolation(value: Json, vendored: Option<Json>, path: seq<string>) {
    match vendored
    case None => path == []
    case Some(y) => Violation(value, y, path)
  }

  lemma ViolationBelow(canonical: Json, vendored: Json, path: seq<string>)
    requires canonical.Obj? && vendored.Obj? && path != []
    ensures Violation(canonical, vendored, path) <==>
      path[0] != "description" && Lookup(canonical.fields, path[0]).Some? &&
      At(Lookup(canonical.fields, path[0]).value, path[1..]).Some? &&
      FieldViolation(Lookup(canonical.fields, path[0]).value, Lookup(vendored.fields, path[0]), path[1..])
  {
    assert path == [path[0]] + path[1..];
    if |path| > 1 {
      assert path[..|path| - 1] == [path[0]] + path[1..][..|path| - 2];
      assert path[..|path| - 1][1..] == path[1..][..|path[1..]| - 1];
    }
  }

  predicate AllBelow(problems: seq<Problem>, path: seq<string>) {
    forall i :: 0 <= i < |problems| ==> path <= problems[i].path
  }

  lemma {:induction false} ReportsAreBelow(canonical: Json, vendored: Json, path: seq<string>)
    ensures AllBelow(Drift(canonical, vendored, path), path)
    decreases canonical, 0
  {
    if canonical.Obj? && vendored.Obj? {
      FieldReportsAreBelow(canonical.fields, vendored.fields, path);
    }
  }

  lemma {:induction false} FieldReportsAreBelow(f: Fields, vendored: Fields, path: seq<string>)
    ensures AllBelow(DriftFields(f, vendored, path), path)
    decreases f, 0
  {
    if f.Field? {
      FieldReportsAreBelow(f.rest, vendored, path);
      if f.key != "description" && Lookup(vendored, f.key).Some? {
        ReportsAreBelow(f.value, Lookup(vendored, f.key).value, path + [f.key]);
        BelowWeaken(Drift(f.value, Lookup(vendored, f.key).value, path + [f.key]), path, f.key);
      }
    }
  }

  lemma BelowWeaken(problems: seq<Problem>, path: seq<string>, key: string)
    requires AllBelow(problems, path + [key])
    ensures AllBelow(problems, path)
  {
    forall i | 0 <= i < |problems|
      ensures path <= problems[i].path
    {
      assert path <= path + [key] <= problems[i].path;
    }
  }

  /** Reports below `path + [key]` are about `key`. */
  lemma ReportedKey(problems: seq<Problem>, path: seq<string>, key: string, sub: seq<string>)
    requires AllBelow(problems, path + [key]) && Reported(problems, path + sub)
    ensures sub != [] && sub[0] == key
  {
    var i :| 0 <= i < |problems| && problems[i].path == path + sub;
    assert path + [key] <= path + sub;
    assert (path + sub)[|path|] == key;
  }

  /** What the loop over the fields is to report at `path + sub`. */
  predicate ViolationAmong(f: Fields, vendored: Fields, sub: seq<string>) {
    sub != [] && sub[0] != "description" && Lookup(f, sub[0]).Some? &&
    At(Lookup(f, sub[0]).value, sub[1..]).Some? &&
    FieldViolation(Lookup(f, sub[0]).value, Lookup(vendored, sub[0]), sub[1..])
  }

  lemma HeadReportedIff(key: string, value: Json, vendored: Fields, path: seq<string>, sub: seq<string>)
    requires WellFormed(value)
    ensures Reported(FieldDrift(key, value, vendored, path), path + sub) <==>
      sub != [] && sub[0] == key && key != "description" && At(value, sub[1..]).Some? &&
      FieldViolation(value, Lookup(vendored, key), sub[1..])
    decreases value, 1
  {
    var reports := FieldDrift(key, value, vendored, path);
    if key != "description" {
      if Lookup(vendored, key).None? {
        MissingReportedIff(path, key, sub);
      } else {
        var y := Lookup(vendored, key).value;
        ReportsAreBelow(value, y, path + [key]);
        if sub != [] && sub[0] == key {
          assert path + sub == path + [key] + sub[1..];
          ReportedIff(value, y, path + [key], sub[1..]);
        } else if Reported(reports, path + sub) {
          ReportedKey(reports, path, key, sub);
        }
      }
    }
  }

  lemma MissingReportedIff(path: seq<string>, key: string, sub: seq<string>)
    ensures Reported([Problem(path + [key], MissingKey)], path + sub) <==> sub == [key]
  {
    var reports := [Problem(path + [key], MissingKey)];
    if sub == [key] {
      assert reports[0].path == path + sub;
    }
    if Reported(reports, path + sub) {
      assert path + [key] == path + sub;
      assert sub == (path + sub)[|path|..] == [key];
    }
  }

  lemma {:induction false} FieldsReportedIff(f: Fields, vendored: Fields, path: seq<string>, sub: seq<string>)
    requires FieldsWellFormed(f)
    ensures Reported(DriftFields(f, vendored, path), path + sub) <==> ViolationAmong(f, vendored, sub)
    decreases f, 0
  {
    if f.Field? {
      HeadReportedIff(f.key, f.value, vendored, path, sub);
      FieldsReportedIff(f.rest, vendored, path, sub);
      ReportedConcat(FieldDrift(f.key, f.value, vendored, path), DriftFields(f.rest, vendored, path), path + sub);
    }
  }

  lemma OneReportIff(p: Problem, path: seq<string>, sub: seq<string>)
    requires p.path == path
    ensures Reported([p], path + sub) <==> sub == []
  {
    if sub == [] {
      assert [p][0].path == path + sub;
    }
  }

  lemma NothingBelow(j: Json, path: seq<string>)
    requires !j.Obj? && path != []
    ensures At(j, path).None?
    ensures |path| > 1 ==> At(j, path[..|path| - 1]).None?
  {
  }

  /** A path is reported exactly when it is violated: whatever is reported is a
      real difference, and no difference goes unreported. */
  lemma ReportedIff(canonical: Json, vendored: Json, path: seq<string>, sub: seq<string>)
    requires WellFormed(canonical)
    ensures Reported(Drift(canonical, vendored, path), path + sub) <==> Violation(canonical, vendored, sub)
    decreases canonical, 0
  {
    if canonical.Obj? && vendored.Obj? {
      FieldsReportedIff(canonical.fields, vendored.fields, path, sub);
      if sub != [] {
        ViolationBelow(canonical, vendored, sub);
      }
    } else {
      LeafReportedIff(canonical, vendored, path, sub);
    }
  }

  lemma LeafReportedIff(canonical: Json, vendored: Json, path: seq<string>, sub: seq<string>)
    requires !(canonical.Obj? && vendored.Obj?)
    ensures Reported(Drift(canonical, vendored, path), path + sub) <==> Violation(canonical, vendored, sub)
  {
    var reports := Drift(canonical, vendored, path);
    if canonical.Arr? && vendored.Arr? {
      NoneMissing(canonical.items, vendored.items);
    }
    assert reports == [] <==> !Mismatch(canonical, vendored);
    if reports != [] {
      OneReportIff(reports[0], path, sub);
      assert reports == [reports[0]];
    }
    if sub != [] {
      if !canonical.Obj? {
        NothingBelow(canonical, sub);
      } else {
        NothingBelow(vendored, sub);
      }
    }
  }
}
