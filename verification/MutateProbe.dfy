/** The mutation probe: a visitor that changes the first thing it can inside a
    test function. */
module MutateProbe {
  import opened Options
  import opened Text

  datatype CmpOp = Eq | NotEq | Lt | GtE | Gt | LtE | Is | IsNot | In | NotIn

  datatype Value = Bool(b: bool) | Int(n: int) | OtherValue(repr: string)

  datatype Head =
    | FunctionDef(name: string, isAsync: bool)
    | Compare(ops: seq<CmpOp>)
    | Other(tag: string)

  /** A list of syntax nodes in visiting order: the first one, what is below it,
      and those that come after it. A tree is a list of one. */
  datatype Nodes =
    | End
    | Constant(value: Value, next: Nodes)
    | Node(head: Head, kids: Nodes, next: Nodes)

  datatype Applied = Flipped(op: CmpOp, into: CmpOp) | Replaced(value: Value, newValue: Value)

  predicate Flippable(op: CmpOp) {
    op in {Eq, NotEq, Lt, GtE, Gt, LtE}
  }

  function Flip(op: CmpOp): CmpOp {
    match op
    case Eq => NotEq
    case NotEq => Eq
    case Lt => GtE
    case GtE => Lt
    case Gt => LtE
    case LtE => Gt
    case _ => op
  }

  predicate Mutable(v: Value) {
    v.Bool? || v.Int?
  }

  function Bump(v: Value): Value {
    match v
    case Bool(b) => Bool(!b)
    case Int(n) => Int(n + 1)
    case OtherValue(_) => v
  }

  predicate IsTestName(name: string) {
    StartsWith(name, "test_")
  }

  predicate Below(head: Head, inside: bool) {
    inside || (head.FunctionDef? && IsTestName(head.name))
  }

  predicate CanFlip(head: Head) {
    head.Compare? && head.ops != [] && Flippable(head.ops[0])
  }

  function FlipHead(head: Head): Head
    requires CanFlip(head)
  {
    Compare([Flip(head.ops[0])] + head.ops[1..])
  }

  // ---- The visitor ----

  datatype Visited = Visited(nodes: Nodes, mutation: Option<Applied>)

  /** What a visit leaves of `f`, and the mutation on record after it. */
  function Visit(f: Nodes, inside: bool, done: Option<Applied>): Visited {
    match f
    case End => Visited(End, done)
    case Constant(v, next) =>
      if done.Some? || !inside || !Mutable(v) then
        var rest := Visit(next, inside, done);
        Visited(Constant(v, rest.nodes), rest.mutation)
      else
        var rest := Visit(next, inside, Some(Replaced(v, Bump(v))));
        Visited(Constant(Bump(v), rest.nodes), rest.mutation)
    case Node(head, kids, next) =>
      if done.None? && inside && CanFlip(head) then
        var rest := Visit(next, inside, Some(Flipped(head.ops[0], Flip(head.ops[0]))));
        Visited(Node(FlipHead(head), kids, rest.nodes), rest.mutation)
      else
        var below := Visit(kids, Below(head, inside), done);
        var rest := Visit(next, inside, below.mutation);
        Visited(Node(head, below.nodes, rest.nodes), rest.mutation)
  }

  class AssertMutator {
    var mutation: Option<Applied>
    var insideTestFn: bool

    constructor ()
      ensures mutation == None && !insideTestFn
    {
      mutation, insideTestFn := None, false;
    }

    method VisitNodes(f: Nodes) returns (r: Nodes)
      modifies this
      ensures Visited(r, mutation) == Visit(f, old(insideTestFn), old(mutation))
      ensures insideTestFn == old(insideTestFn)
      decreases f, 0
    {
      match f
      case End =>
        r := End;
      case Constant(v, next) =>
        var v' := VisitConstant(v);
        var next' := VisitNodes(next);
        r := Constant(v', next');
      case Node(head, kids, next) =>
        var head', kids' := head, kids;
        if head.FunctionDef? {
          kids' := VisitFunctionDef(head.name, kids);
        } else if head.Compare? {
          head', kids' := VisitCompare(head, kids);
        } else {
          kids' := VisitNodes(kids);
        }
        var next' := VisitNodes(next);
        r := Node(head', kids', next');
    }

    /** `visit_FunctionDef` and `visit_AsyncFunctionDef` */
    method VisitFunctionDef(name: string, kids: Nodes) returns (kids': Nodes)
      modifies this
      ensures Visited(kids', mutation) == Visit(kids, old(insideTestFn) || IsTestName(name), old(mutation))
      ensures insideTestFn == old(insideTestFn)
      decreases kids, 1
    {
      var prev := insideTestFn;
      if IsTestName(name) {
        insideTestFn := true;
      }
      kids' := VisitNodes(kids);
      insideTestFn := prev;
    }

    method VisitCompare(head: Head, kids: Nodes) returns (head': Head, kids': Nodes)
      requires head.Compare?
      modifies this
      ensures old(mutation).None? && old(insideTestFn) && CanFlip(head) ==>
        head' == FlipHead(head) && kids' == kids && mutation == Some(Flipped(head.ops[0], Flip(head.ops[0])))
      ensures !(old(mutation).None? && old(insideTestFn) && CanFlip(head)) ==>
        head' == head && Visited(kids', mutation) == Visit(kids, old(insideTestFn), old(mutation))
      ensures insideTestFn == old(insideTestFn)
      decreases kids, 1
    {
      head', kids' := head, kids;
      if mutation.Some? || !insideTestFn || head.ops == [] || !Flippable(head.ops[0]) {
        kids' := VisitNodes(kids);
        return;
      }
      var op := head.ops[0];
      head' := Compare(head.ops[0 := Flip(op)]);
      assert head.ops[0 := Flip(op)] == [Flip(op)] + head.ops[1..];
      mutation := Some(Flipped(op, Flip(op)));
    }

    method VisitConstant(v: Value) returns (v': Value)
      modifies this
      ensures insideTestFn == old(insideTestFn)
      ensures if old(mutation).Some? || !old(insideTestFn) || !Mutable(v)
              then v' == v && mutation == old(mutation)
              else v' == Bump(v) && mutation == Some(Replaced(v, Bump(v)))
    {
      v' := v;
      if mutation.Some? || !insideTestFn {
        return;
      }
      if v.Bool? {
        v' := Bool(!v.b);
        mutation := Some(Replaced(v, v'));
      } else if v.Int? {
        v' := Int(v.n + 1);
        mutation := Some(Replaced(v, v'));
      }
    }
  }

  function Probe(tree: Nodes): Visited {
    Visit(tree, false, None)
  }

  /** `mutate_source`; a source that does not parse has no tree. */
  method MutateSource(parsed: Option<Nodes>) returns (r: Option<(Nodes, Applied)>)
    ensures parsed.None? ==> r == None
    ensures parsed.Some? && Probe(parsed.value).mutation.None? ==> r == None
    ensures parsed.Some? && Probe(parsed.value).mutation.Some? ==>
      r == Some((Probe(parsed.value).nodes, Probe(parsed.value).mutation.value))
  {
    if parsed.None? {
      return None;
    }
    var mutator := new AssertMutator();
    var mutated := mutator.VisitNodes(parsed.value);
    r := if mutator.mutation.None? then None else Some((mutated, mutator.mutation.value));
  }

  // ---- Sites: the tree as a list in visiting order ----

  datatype Item = Val(value: Value) | Op(head: Head)

  /** A node in visiting order, and whether a test function is above it. */
  datatype Site = Site(item: Item, inside: bool)

  function Sites(f: Nodes, inside: bool): seq<Site> {
    match f
    case End => []
    case Constant(v, next) => [Site(Val(v), inside)] + Sites(next, inside)
    case Node(head, kids, next) =>
      [Site(Op(head), inside)] + Sites(kids, Below(head, inside)) + Sites(next, inside)
  }

  /** The tree with everything but its shape taken out. */
  datatype Shape = EndShape | ConstantShape(next: Shape) | NodeShape(kids: Shape, next: Shape)

  function ShapeOf(f: Nodes): Shape {
    match f
    case End => EndShape
    case Constant(_, next) => ConstantShape(ShapeOf(next))
    case Node(_, kids, next) => NodeShape(ShapeOf(kids), ShapeOf(next))
  }

  predicate Applicable(s: Site) {
    s.inside && if s.item.Val? then Mutable(s.item.value) else CanFlip(s.item.head)
  }

  function Mutate(item: Item): Item {
    if item.Val? then Val(Bump(item.value))
    else if CanFlip(item.head) then Op(FlipHead(item.head))
    else item
  }

  function AppliedTo(item: Item): Applied
    requires item.Val? || CanFlip(item.head)
  {
    if item.Val? then Replaced(item.value, Bump(item.value))
    else Flipped(item.head.ops[0], Flip(item.head.ops[0]))
  }

  /** The first applicable site; the length if there is none. */
  function First(sites: seq<Site>): (k: nat)
    ensures k <= |sites|
    ensures k < |sites| ==> Applicable(sites[k])
    ensures forall i :: 0 <= i < k ==> !Applicable(sites[i])
  {
    if sites == [] || Applicable(sites[0]) then 0 else 1 + First(sites[1..])
  }

  lemma {:induction false} FirstConcat(a: seq<Site>, b: seq<Site>)
    ensures First(a + b) == if First(a) < |a| then First(a) else |a| + First(b)
  {
    if a == [] {
      assert a + b == b;
    } else {
      assert (a + b)[1..] == a[1..] + b;
      FirstConcat(a[1..], b);
    }
  }

  lemma {:induction false} SiteCount(f: Nodes, inside: bool, other: bool)
    ensures |Sites(f, inside)| == |Sites(f, other)|
  {
    match f
    case End =>
    case Constant(_, next) =>
      SiteCount(next, inside, other);
    case Node(head, kids, next) =>
      SiteCount(kids, Below(head, inside), Below(head, other));
      SiteCount(next, inside, other);
  }

  /** After a mutation nothing changes any more. */
  lemma {:induction false} DoneIsDone(f: Nodes, inside: bool, m: Applied)
    ensures Visit(f, inside, Some(m)) == Visited(f, Some(m))
  {
    match f
    case End =>
    case Constant(_, next) =>
      DoneIsDone(next, inside, m);
    case Node(head, kids, next) =>
      DoneIsDone(kids, Below(head, inside), m);
      DoneIsDone(next, inside, m);
  }

  lemma SplitThree(s: Site, a: seq<Site>, b: seq<Site>)
    ensures ([s] + a + b)[1..1 + |a|] == a && ([s] + a + b)[1 + |a|..] == b
  {
  }

  /** A shape and what stands at its sites are the whole tree. */
  lemma {:induction false} ShapeAndSites(f: Nodes, g: Nodes, inside: bool)
    requires ShapeOf(f) == ShapeOf(g) && Sites(f, inside) == Sites(g, inside)
    ensures f == g
  {
    match f
    case End =>
    case Constant(v, next) =>
      assert Sites(f, inside)[0] == Sites(g, inside)[0];
      assert Sites(f, inside)[1..] == Sites(next, inside) && Sites(g, inside)[1..] == Sites(g.next, inside);
      ShapeAndSites(next, g.next, inside);
    case Node(head, kids, next) =>
      var below := Below(head, inside);
      assert Sites(f, inside)[0] == Sites(g, inside)[0];
      SameShapeSameCount(kids, g.kids, below);
      SplitThree(Site(Op(head), inside), Sites(kids, below), Sites(next, inside));
      SplitThree(Site(Op(head), inside), Sites(g.kids, below), Sites(g.next, inside));
      ShapeAndSites(kids, g.kids, below);
      ShapeAndSites(next, g.next, inside);
  }

  lemma {:induction false} SameShapeSameCount(f: Nodes, g: Nodes, inside: bool)
    requires ShapeOf(f) == ShapeOf(g)
    ensures |Sites(f, inside)| == |Sites(g, inside)|
  {
    match f
    case End =>
    case Constant(_, next) =>
      SameShapeSameCount(next, g.next, inside);
    case Node(head, kids, next) =>
      SameShapeSameCount(kids, g.kids, Below(head, inside));
      SiteCount(g.kids, Below(head, inside), Below(g.head, inside));
      SameShapeSameCount(next, g.next, inside);
  }

  // ---- Exactly one change, in the first place it can be ----

  /** `after` is `before` with its first applicable site mutated, and `m` says
      so; or there is none, and nothing happened. */
  ghost predicate FirstChanged(before: seq<Site>, after: seq<Site>, m: Option<Applied>) {
    var k := First(before);
    if k == |before| then after == before && m == None
    else after == before[k := Site(Mutate(before[k].item), true)] && m == Some(AppliedTo(before[k].item))
  }

  lemma ChangedInHead(s: Site, rest: seq<Site>)
    requires Applicable(s)
    ensures FirstChanged([s] + rest, [Site(Mutate(s.item), true)] + rest, Some(AppliedTo(s.item)))
  {
    var x := Site(Mutate(s.item), true);
    assert ([s] + rest)[0 := x] == [x] + rest;
  }

  lemma ChangedInLeft(a: seq<Site>, a': seq<Site>, b: seq<Site>, m: Applied)
    requires FirstChanged(a, a', Some(m))
    ensures FirstChanged(a + b, a' + b, Some(m))
  {
    FirstConcat(a, b);
    var x := Site(Mutate(a[First(a)].item), true);
    assert (a + b)[First(a) := x] == a[First(a) := x] + b;
  }

  lemma ChangedInRight(a: seq<Site>, b: seq<Site>, b': seq<Site>, m: Option<Applied>)
    requires FirstChanged(a, a, None) && FirstChanged(b, b', m)
    ensures FirstChanged(a + b, a + b', m)
  {
    FirstConcat(a, b);
    var k := First(b);
    if k < |b| {
      var x := Site(Mutate(b[k].item), true);
      assert (a + b)[|a| + k := x] == a + b[k := x];
    }
  }

  ghost predicate ChangesFirst(f: Nodes, inside: bool) {
    var v := Visit(f, inside, None);
    ShapeOf(v.nodes) == ShapeOf(f) && FirstChanged(Sites(f, inside), Sites(v.nodes, inside), v.mutation)
  }

  lemma FlipsHere(head: Head, kids: Nodes, next: Nodes, inside: bool)
    requires inside && CanFlip(head)
    ensures ChangesFirst(Node(head, kids, next), inside)
  {
    DoneIsDone(next, inside, Flipped(head.ops[0], Flip(head.ops[0])));
    var rest := Sites(kids, inside) + Sites(next, inside);
    ChangedInHead(Site(Op(head), inside), rest);
    assert Sites(Node(head, kids, next), inside) == [Site(Op(head), inside)] + rest;
    assert Sites(Node(FlipHead(head), kids, next), inside) == [Site(Op(FlipHead(head)), inside)] + rest;
  }

  lemma ChangesBelow(head: Head, kids: Nodes, next: Nodes, inside: bool)
    requires !(inside && CanFlip(head)) && ChangesFirst(kids, Below(head, inside))
    requires Visit(kids, Below(head, inside), None).mutation.Some?
    ensures ChangesFirst(Node(head, kids, next), inside)
  {
    var s, ks := Site(Op(head), inside), Sites(kids, Below(head, inside));
    var below := Visit(kids, Below(head, inside), None);
    var ks' := Sites(below.nodes, Below(head, inside));
    assert [s][1..] == [];
    ChangedInRight([s], ks, ks', below.mutation);
    ChangedInLeft([s] + ks, [s] + ks', Sites(next, inside), below.mutation.value);
    DoneIsDone(next, inside, below.mutation.value);
  }

  lemma ChangesAfter(head: Head, kids: Nodes, next: Nodes, inside: bool)
    requires !(inside && CanFlip(head)) && ChangesFirst(kids, Below(head, inside)) && ChangesFirst(next, inside)
    requires Visit(kids, Below(head, inside), None).mutation.None?
    ensures ChangesFirst(Node(head, kids, next), inside)
  {
    var s, ks := Site(Op(head), inside), Sites(kids, Below(head, inside));
    var below, rest := Visit(kids, Below(head, inside), None), Visit(next, inside, None);
    assert [s][1..] == [];
    ChangedInRight([s], ks, ks, None);
    assert Sites(below.nodes, Below(head, inside)) == ks;
    assert Visit(Node(head, kids, next), inside, None) == Visited(Node(head, below.nodes, rest.nodes), rest.mutation);
    ChangedInRight([s] + ks, Sites(next, inside), Sites(rest.nodes, inside), rest.mutation);
  }

  lemma ChangesConstant(v: Value, next: Nodes, inside: bool)
    requires ChangesFirst(next, inside)
    ensures ChangesFirst(Constant(v, next), inside)
  {
    var s, ns := Site(Val(v), inside), Sites(next, inside);
    if Applicable(s) {
      DoneIsDone(next, inside, Replaced(v, Bump(v)));
      ChangedInHead(s, ns);
    } else {
      var rest := Visit(next, inside, None);
      assert [s][1..] == [];
      ChangedInRight([s], ns, Sites(rest.nodes, inside), rest.mutation);
    }
  }

  lemma {:induction false} VisitChangesFirst(f: Nodes, inside: bool)
    ensures ChangesFirst(f, inside)
  {
    match f
    case End =>
    case Constant(v, next) =>
      VisitChangesFirst(next, inside);
      ChangesConstant(v, next, inside);
    case Node(head, kids, next) =>
      VisitChangesFirst(kids, Below(head, inside));
      VisitChangesFirst(next, inside);
      if inside && CanFlip(head) {
        FlipsHere(head, kids, next, inside);
      } else if Visit(kids, Below(head, inside), None).mutation.Some? {
        ChangesBelow(head, kids, next, inside);
      } else {
        ChangesAfter(head, kids, next, inside);
      }
  }

  /** The probe changes one node at most: the first one in visiting order that is
      below a test function and can be changed. Every other node and the shape
      of the tree stay as they are. */
  lemma ProbeChangesOne(tree: Nodes)
    ensures ShapeOf(Probe(tree).nodes) == ShapeOf(tree)
    ensures FirstChanged(Sites(tree, false), Sites(Probe(tree).nodes, false), Probe(tree).mutation)
  {
    VisitChangesFirst(tree, false);
  }

  /** Nothing is reported exactly when no node can be changed, and exactly when
      the tree comes back as it was. */
  lemma NothingReportedIff(tree: Nodes)
    ensures Probe(tree).mutation == None <==> forall s :: s in Sites(tree, false) ==> !Applicable(s)
    ensures Probe(tree).mutation == None <==> Probe(tree).nodes == tree
  {
    ProbeChangesOne(tree);
    var sites := Sites(tree, false);
    var k := First(sites);
    if k < |sites| {
      MutateChanges(sites[k].item);
      assert sites[k] in sites && Applicable(sites[k]);
      assert Sites(Probe(tree).nodes, false)[k].item == Mutate(sites[k].item);
    } else {
      ShapeAndSites(Probe(tree).nodes, tree, false);
    }
  }

  lemma MutateChanges(item: Item)
    requires Applicable(Site(item, true))
    ensures Mutate(item) != item && Applicable(Site(Mutate(item), true))
    ensures Mutate(Mutate(item)) == item <==> !(item.Val? && item.value.Int?)
  {
    if item.Op? {
      assert FlipHead(item.head).ops[0] == Flip(item.head.ops[0]) != item.head.ops[0];
      assert FlipHead(FlipHead(item.head)).ops == item.head.ops;
    }
  }

  // ---- Twice ----

  lemma {:induction false} FirstStays(sites: seq<Site>, x: Site)
    requires First(sites) < |sites| && Applicable(x)
    ensures First(sites[First(sites) := x]) == First(sites)
  {
    if !Applicable(sites[0]) {
      FirstStays(sites[1..], x);
      assert sites[First(sites) := x][1..] == sites[1..][First(sites) - 1 := x];
    }
  }

  predicate IsInt(item: Item) {
    item.Val? && item.value.Int?
  }

  /** Two probes change the same site twice. */
  lemma TwiceAtOneSite(tree: Nodes)
    requires First(Sites(tree, false)) < |Sites(tree, false)|
    ensures var sites := Sites(tree, false); var k := First(sites); var twice := Probe(Probe(tree).nodes).nodes;
      ShapeOf(twice) == ShapeOf(tree) && Sites(twice, false) == sites[k := Site(Mutate(Mutate(sites[k].item)), true)]
  {
    var sites := Sites(tree, false);
    var k := First(sites);
    var once := Probe(tree).nodes;
    ProbeChangesOne(tree);
    MutateChanges(sites[k].item);
    FirstStays(sites, Site(Mutate(sites[k].item), true));
    ProbeChangesOne(once);
  }

  /** Probing the probed tree gives the first tree back exactly when there was
      nothing to change or what was changed was a comparison or a boolean. */
  lemma ProbeTwice(tree: Nodes)
    ensures var sites := Sites(tree, false); var k := First(sites);
      Probe(Probe(tree).nodes).nodes == tree <==> (k < |sites| ==> !IsInt(sites[k].item))
  {
    var sites := Sites(tree, false);
    var k := First(sites);
    NothingReportedIff(tree);
    if k < |sites| {
      TwiceAtOneSite(tree);
      MutateChanges(sites[k].item);
      if IsInt(sites[k].item) {
        assert Sites(Probe(Probe(tree).nodes).nodes, false)[k].item != sites[k].item;
      } else {
        assert sites[k := Site(sites[k].item, true)] == sites;
        ShapeAndSites(Probe(Probe(tree).nodes).nodes, tree, false);
      }
    }
  }

  // ---- What a flipped comparison means ----

  /** A comparison in terms of one relation `leq`. */
  predicate Holds<T>(leq: (T, T) -> bool, op: CmpOp, a: T, b: T)
    requires Flippable(op)
  {
    match op
    case Eq => leq(a, b) && leq(b, a)
    case NotEq => !(leq(a, b) && leq(b, a))
    case Lt => leq(a, b) && !leq(b, a)
    case GtE => leq(b, a)
    case Gt => leq(b, a) && !leq(a, b)
    case LtE => leq(a, b)
  }

  /** Over the integers the operators are the usual ones. */
  lemma HoldsOnIntegers(op: CmpOp, a: int, b: int)
    requires Flippable(op)
    ensures Holds((x: int, y: int) => x <= y, op, a, b) <==>
      (op == Eq && a == b) || (op == NotEq && a != b) || (op == Lt && a < b) || (op == LtE && a <= b) ||
      (op == Gt && a > b) || (op == GtE && a >= b)
  {
  }

  ghost predicate Total<T(!new)>(leq: (T, T) -> bool) {
    forall a, b :: leq(a, b) || leq(b, a)
  }

  ghost predicate FlipNegates<T(!new)>(leq: (T, T) -> bool) {
    forall op, a, b :: Flippable(op) ==> (Holds(leq, Flip(op), a, b) <==> !Holds(leq, op, a, b))
  }

  /** Flipping one operator negates the comparison exactly when any two values
      can be compared. */
  lemma FlipNegatesIff<T(!new)>(leq: (T, T) -> bool)
    ensures FlipNegates(leq) <==> Total(leq)
  {
    if FlipNegates(leq) {
      forall a, b
        ensures leq(a, b) || leq(b, a)
      {
        assert Holds(leq, Flip(Lt), a, b) <==> !Holds(leq, Lt, a, b);
      }
    }
  }

  /** `a op0 b op1 c ...`: every link holds. */
  predicate Chain<T>(leq: (T, T) -> bool, ops: seq<CmpOp>, values: seq<T>)
    requires |values| == |ops| + 1 && forall op :: op in ops ==> Flippable(op)
  {
    ops == [] || (Holds(leq, ops[0], values[0], values[1]) && Chain(leq, ops[1..], values[1..]))
  }

  /** Of a chained comparison only the first link is flipped. The chain is
      negated exactly when the other links hold; otherwise it stays false. */
  lemma FlippedChain<T(!new)>(leq: (T, T) -> bool, ops: seq<CmpOp>, values: seq<T>)
    requires Total(leq) && ops != [] && |values| == |ops| + 1 && forall op :: op in ops ==> Flippable(op)
    ensures var flipped := FlipHead(Compare(ops)).ops;
      |flipped| == |ops| && (forall op :: op in flipped ==> Flippable(op)) &&
      ((Chain(leq, flipped, values) <==> !Chain(leq, ops, values)) <==> Chain(leq, ops[1..], values[1..]))
  {
    FlipNegatesIff(leq);
    var flipped := FlipHead(Compare(ops)).ops;
    assert flipped[1..] == ops[1..];
    forall op | op in flipped
      ensures Flippable(op)
    {
      assert op == flipped[0] || op in ops[1..];
    }
    assert Holds(leq, Flip(ops[0]), values[0], values[1]) <==> !Holds(leq, ops[0], values[0], values[1]);
  }

  // ---- Not what the comment says ----

  /** `def test_f(): x = 1; assert x == y` */
  function AssignThenAssert(): Nodes {
    var assign := (next: Nodes) => Node(Other("Assign"), Node(Other("Name x"), End, Constant(Int(1), End)), next);
    var check := Node(Other("Assert"), Node(Compare([Eq]), Node(Other("Name x"), End, Node(Other("Name y"), End, End)),
        End), End);
    Node(FunctionDef("test_f", false), assign(check), End)
  }

  /** Comparisons are not preferred: the constant that comes first is what is
      changed, and the assertion is left alone. */
  lemma ConstantComesFirst()
    ensures Probe(AssignThenAssert()).mutation == Some(Replaced(Int(1), Int(2)))
    ensures Site(Op(Compare([Eq])), true) in Sites(AssignThenAssert(), false)
  {
    var check := Node(Compare([Eq]), Node(Other("Name x"), End, Node(Other("Name y"), End, End)), End);
    var body := Node(Other("Assert"), check, End);
    assert IsTestName("test_f");
    var sites := Sites(AssignThenAssert(), false);
    assert Sites(check, true)[0] == Site(Op(Compare([Eq])), true);
    assert Sites(body, true)[1] == Site(Op(Compare([Eq])), true);
    assert sites[5] == Site(Op(Compare([Eq])), true);
  }
}
