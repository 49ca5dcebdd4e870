/** Two-pass deduplication of generated tests. */
module TriageDedup {
  import opened NormalForm

  // Byte-identical sources first, then sources that only differ in white space.
  // SHA-256 is taken to be injective, so a digest is modelled by the text it
  // digests.

  // ---- Candidates and groups ----

  /** The evaluator's verdict on one test, as far as triage reads it. */
  datatype Verdict = Verdict(
    verdictLabel: string,
    mutation: string,
    stability: string,
    coverageDelta: real,
    rationale: string,
    reasons: seq<string>,
    framework: string,
    language: string,
    lane: string,
    coversAcs: seq<string>)

  datatype Candidate = Candidate(testId: string, testFile: string, verdict: Verdict, source: string)

  /** Accepted or flagged: what triage goes on with. */
  predicate Wanted(c: Candidate) {
    c.verdict.verdictLabel == "accept" || c.verdict.verdictLabel == "flag"
  }

  datatype CollisionKind = ByteIdentical | WhitespaceNormalised

  datatype Collision = Collision(kind: CollisionKind, representative: Candidate, dropped: seq<Candidate>)

  function SourceKey(): Candidate -> string {
    (c: Candidate) => c.source
  }

  function NormalKey(): Candidate -> string {
    (c: Candidate) => Normalise(c.source)
  }

  /** The candidates with key `k`, in input order. */
  function Group(key: Candidate -> string, k: string, xs: seq<Candidate>): seq<Candidate> {
    if xs == [] then []
    else
      var g := Group(key, k, xs[..|xs| - 1]);
      if key(xs[|xs| - 1]) == k then g + [xs[|xs| - 1]] else g
  }

  /** The keys that occur, in the order they first occur: a dict's order. */
  function Occurring(key: Candidate -> string, xs: seq<Candidate>): seq<string> {
    if xs == [] then []
    else
      var ks := Occurring(key, xs[..|xs| - 1]);
      var k := key(xs[|xs| - 1]);
      if k in ks then ks else ks + [k]
  }

  /** The first candidate of every key, in input order. */
  function FirstOfEach(key: Candidate -> string, xs: seq<Candidate>): seq<Candidate> {
    if xs == [] then []
    else
      var x := xs[|xs| - 1];
      var front := xs[..|xs| - 1];
      if key(x) in Occurring(key, front) then FirstOfEach(key, front)
      else FirstOfEach(key, front) + [x]
  }

  /** One collision per key of `ks` that more than one candidate has. */
  function Collisions(kind: CollisionKind, key: Candidate -> string, ks: seq<string>,
                      xs: seq<Candidate>): seq<Collision> {
    if ks == [] then []
    else
      Collisions(kind, key, ks[..|ks| - 1], xs) + GroupCollision(kind, Group(key, ks[|ks| - 1], xs))
  }

  function GroupCollision(kind: CollisionKind, g: seq<Candidate>): seq<Collision> {
    if |g| <= 1 then [] else [Collision(kind, g[0], g[1..])]
  }

  lemma {:induction false} GroupMembers(key: Candidate -> string, k: string, xs: seq<Candidate>)
    ensures forall c :: c in Group(key, k, xs) <==> c in xs && key(c) == k
  {
    if xs != [] {
      GroupMembers(key, k, xs[..|xs| - 1]);
      assert forall c :: c in xs <==> c in xs[..|xs| - 1] || c == xs[|xs| - 1];
    }
  }

  lemma {:induction false} OccurringGroup(key: Candidate -> string, k: string, xs: seq<Candidate>)
    ensures k in Occurring(key, xs) <==> Group(key, k, xs) != []
  {
    if xs != [] {
      OccurringGroup(key, k, xs[..|xs| - 1]);
    }
  }

  predicate Distinct(ks: seq<string>) {
    forall i, j :: 0 <= i < j < |ks| ==> ks[i] != ks[j]
  }

  lemma {:induction false} OccurringDistinct(key: Candidate -> string, xs: seq<Candidate>)
    ensures Distinct(Occurring(key, xs))
  {
    if xs != [] {
      OccurringDistinct(key, xs[..|xs| - 1]);
    }
  }

  predicate Grouped(key: Candidate -> string, ks: seq<string>, xs: seq<Candidate>) {
    forall i :: 0 <= i < |ks| ==> Group(key, ks[i], xs) != []
  }

  lemma OccurringGroups(key: Candidate -> string, xs: seq<Candidate>)
    ensures Grouped(key, Occurring(key, xs), xs)
  {
    var ks := Occurring(key, xs);
    forall i | 0 <= i < |ks|
      ensures Group(key, ks[i], xs) != []
    {
      OccurringGroup(key, ks[i], xs);
    }
  }

  lemma OccurringIff(key: Candidate -> string, x: Candidate, xs: seq<Candidate>)
    ensures x in xs ==> key(x) in Occurring(key, xs)
    ensures key(x) in Occurring(key, xs) ==> exists y :: y in xs && key(y) == key(x)
  {
    GroupMembers(key, key(x), xs);
    OccurringGroup(key, key(x), xs);
    var g := Group(key, key(x), xs);
    if g != [] {
      assert g[0] in g;
    }
  }

  lemma {:induction false} FirstsCount(key: Candidate -> string, xs: seq<Candidate>)
    ensures |FirstOfEach(key, xs)| == |Occurring(key, xs)|
  {
    if xs != [] {
      FirstsCount(key, xs[..|xs| - 1]);
    }
  }

  /** The firsts are the heads of the groups, in the order of the keys. */
  lemma {:induction false} FirstIsHead(key: Candidate -> string, xs: seq<Candidate>, i: nat)
    requires i < |Occurring(key, xs)| == |FirstOfEach(key, xs)|
    ensures var g := Group(key, Occurring(key, xs)[i], xs); g != [] && FirstOfEach(key, xs)[i] == g[0]
  {
    var front, x := xs[..|xs| - 1], xs[|xs| - 1];
    FirstsCount(key, front);
    OccurringGroup(key, key(x), front);
    if i < |Occurring(key, front)| {
      FirstIsHead(key, front, i);
    }
  }

  // ---- The method ----

  /** `groups.setdefault(key, []).append(c)`, with the dict's insertion order. */
  method GroupBy(key: Candidate -> string, cands: seq<Candidate>)
    returns (order: seq<string>, groups: map<string, seq<Candidate>>)
    ensures order == Occurring(key, cands)
    ensures forall k :: k in groups <==> k in order
    ensures forall k :: k in groups ==> groups[k] == Group(key, k, cands)
  {
    order, groups := [], map[];
    for i := 0 to |cands|
      invariant order == Occurring(key, cands[..i])
      invariant forall k :: k in groups <==> k in order
      invariant forall k :: k in groups ==> groups[k] == Group(key, k, cands[..i])
    {
      var c := cands[i];
      var k := key(c);
      assert cands[..i + 1][..i] == cands[..i];
      OccurringGroup(key, k, cands[..i]);
      if k !in groups {
        order := order + [k];
        groups := groups[k := []];
      }
      groups := groups[k := groups[k] + [c]];
    }
    assert cands[..|cands|] == cands;
  }

  /** What pass 1 has found when it has been through the groups of `ks`. */
  ghost predicate Found(key: Candidate -> string, cands: seq<Candidate>, ks: seq<string>,
                        after: seq<Candidate>, collisions: seq<Collision>) {
    |ks| <= |FirstOfEach(key, cands)| && after == FirstOfEach(key, cands)[..|ks|] &&
    collisions == Collisions(ByteIdentical, key, ks, cands)
  }

  lemma FoundSnoc(key: Candidate -> string, cands: seq<Candidate>, ks: seq<string>, k: string,
                  after: seq<Candidate>, collisions: seq<Collision>)
    requires Found(key, cands, ks, after, collisions)
    requires |ks| < |Occurring(key, cands)| && k == Occurring(key, cands)[|ks|]
    ensures var g := Group(key, k, cands);
      g != [] && Found(key, cands, ks + [k], after + [g[0]], collisions + GroupCollision(ByteIdentical, g))
  {
    FirstsCount(key, cands);
    FirstIsHead(key, cands, |ks|);
    CollisionsSnoc(ByteIdentical, key, ks, k, cands);
  }

  lemma PrefixSnoc<T>(s: seq<T>, i: nat)
    requires i < |s|
    ensures s[..i] + [s[i]] == s[..i + 1]
  {
  }

  /** Pass 1: keep the first of every byte-identical group; `key` is the byte hash. */
  method BytePass(key: Candidate -> string, cands: seq<Candidate>)
    returns (after: seq<Candidate>, collisions: seq<Collision>)
    ensures after == FirstOfEach(key, cands)
    ensures collisions == Collisions(ByteIdentical, key, Occurring(key, cands), cands)
  {
    var order, groups := GroupBy(key, cands);
    after, collisions := [], [];
    for i := 0 to |order|
      invariant Found(key, cands, order[..i], after, collisions)
    {
      var group := groups[order[i]];
      FoundSnoc(key, cands, order[..i], order[i], after, collisions);
      PrefixSnoc(order, i);
      after := after + [group[0]];
      if |group| != 1 {
        collisions := collisions + [Collision(ByteIdentical, group[0], group[1..])];
      }
    }
    FirstsCount(key, cands);
    assert order[..|order|] == order;
  }

  /** Pass 2: the same on normal forms, walking the survivors of pass 1;
      `key` is the normalised hash. */
  method NormalPass(key: Candidate -> string, after: seq<Candidate>)
    returns (kept: seq<Candidate>, collisions: seq<Collision>)
    ensures kept == FirstOfEach(key, after)
    ensures collisions == Collisions(WhitespaceNormalised, key, Occurring(key, after), after)
  {
    var _, groups := GroupBy(key, after);
    kept, collisions := [], [];
    var seen: set<string> := {};
    for i := 0 to |after|
      invariant kept == FirstOfEach(key, after[..i])
      invariant forall k :: k in seen <==> k in Occurring(key, after[..i])
      invariant collisions == Collisions(WhitespaceNormalised, key, Occurring(key, after[..i]), after)
    {
      var n := key(after[i]);
      OccursIn(key, after, i);
      if n !in seen {
        NewKeyStep(key, after, i);
        CollisionsSnoc(WhitespaceNormalised, key, Occurring(key, after[..i]), n, after);
        seen := seen + {n};
        var group := groups[n];
        kept := kept + [group[0]];
        if |group| > 1 {
          collisions := collisions + [Collision(WhitespaceNormalised, group[0], group[1..])];
        }
      } else {
        OldKeyStep(key, after, i);
      }
    }
    assert after[..|after|] == after;
  }

  method DedupCandidates(cands: seq<Candidate>) returns (kept: seq<Candidate>, collisions: seq<Collision>)
    ensures kept == Kept(cands)
    ensures collisions == ByteCollisions(cands) + NormalCollisions(cands)
  {
    var after, byteCollisions := BytePass(SourceKey(), cands);
    var normalCollisions;
    kept, normalCollisions := NormalPass(NormalKey(), after);
    collisions := byteCollisions + normalCollisions;
  }

  function AfterBytes(cands: seq<Candidate>): seq<Candidate> {
    FirstOfEach(SourceKey(), cands)
  }

  function Kept(cands: seq<Candidate>): seq<Candidate> {
    FirstOfEach(NormalKey(), AfterBytes(cands))
  }

  function ByteCollisions(cands: seq<Candidate>): seq<Collision> {
    Collisions(ByteIdentical, SourceKey(), Occurring(SourceKey(), cands), cands)
  }

  function NormalCollisions(cands: seq<Candidate>): seq<Collision> {
    var after := AfterBytes(cands);
    Collisions(WhitespaceNormalised, NormalKey(), Occurring(NormalKey(), after), after)
  }

  // ---- What deduplication does ----

  lemma {:induction false} GroupOfPrefix(key: Candidate -> string, k: string, xs: seq<Candidate>, n: nat)
    requires n <= |xs|
    ensures Group(key, k, xs[..n]) <= Group(key, k, xs)
  {
    if n < |xs| {
      var front := xs[..|xs| - 1];
      assert front[..n] == xs[..n];
      GroupOfPrefix(key, k, front, n);
    } else {
      assert xs[..n] == xs;
    }
  }

  /** One step of a walk over `xs`: a key seen before changes nothing. */
  lemma OldKeyStep(key: Candidate -> string, xs: seq<Candidate>, i: nat)
    requires i < |xs| && key(xs[i]) in Occurring(key, xs[..i])
    ensures FirstOfEach(key, xs[..i + 1]) == FirstOfEach(key, xs[..i])
    ensures Occurring(key, xs[..i + 1]) == Occurring(key, xs[..i])
  {
    assert xs[..i + 1][..i] == xs[..i];
  }

  /** A new key adds the head of its group, which is the candidate at hand. */
  lemma NewKeyStep(key: Candidate -> string, xs: seq<Candidate>, i: nat)
    requires i < |xs| && key(xs[i]) !in Occurring(key, xs[..i])
    ensures FirstOfEach(key, xs[..i + 1]) == FirstOfEach(key, xs[..i]) + [xs[i]]
    ensures Occurring(key, xs[..i + 1]) == Occurring(key, xs[..i]) + [key(xs[i])]
    ensures Group(key, key(xs[i]), xs) != [] && Group(key, key(xs[i]), xs)[0] == xs[i]
  {
    assert xs[..i + 1][..i] == xs[..i];
    OccurringGroup(key, key(xs[i]), xs[..i]);
    GroupOfPrefix(key, key(xs[i]), xs, i + 1);
  }

  lemma OccursIn(key: Candidate -> string, xs: seq<Candidate>, i: nat)
    requires i < |xs|
    ensures key(xs[i]) in Occurring(key, xs)
  {
    OccurringIff(key, xs[i], xs);
  }

  lemma CollisionsSnoc(kind: CollisionKind, key: Candidate -> string, ks: seq<string>, k: string, xs: seq<Candidate>)
    ensures Collisions(kind, key, ks + [k], xs) == Collisions(kind, key, ks, xs) + GroupCollision(kind, Group(key, k,
        xs))
  {
    assert (ks + [k])[..|ks|] == ks;
  }

  /** Being first among the firsts is being first: a pass with a finer key before
      it does not change what a pass keeps. */
  lemma {:induction false} FinerPassIsInvisible(fine: Candidate -> string, key: Candidate -> string, xs: seq<Candidate>)
    requires forall a, b :: fine(a) == fine(b) ==> key(a) == key(b)
    ensures FirstOfEach(key, FirstOfEach(fine, xs)) == FirstOfEach(key, xs)
    ensures forall k :: k in Occurring(key, FirstOfEach(fine, xs)) <==> k in Occurring(key, xs)
  {
    if xs != [] {
      var x, front := xs[|xs| - 1], xs[..|xs| - 1];
      FinerPassIsInvisible(fine, key, front);
      var firsts := FirstOfEach(fine, front);
      if fine(x) in Occurring(fine, front) {
        OccurringIff(fine, x, front);
        var y :| y in front && fine(y) == fine(x);
        OccurringIff(key, y, front);
      } else {
        assert (firsts + [x])[..|firsts|] == firsts;
      }
    }
  }

  /** Two passes keep what one pass over the normal forms would keep: the first
      test of every normal form, in input order. */
  lemma TwoPassesAreOne(cands: seq<Candidate>)
    ensures Kept(cands) == FirstOfEach(NormalKey(), cands)
  {
    FinerPassIsInvisible(SourceKey(), NormalKey(), cands);
  }

  lemma {:induction false} FirstsAreIn(key: Candidate -> string, xs: seq<Candidate>)
    ensures forall f :: f in FirstOfEach(key, xs) ==> f in xs
  {
    if xs != [] {
      FirstsAreIn(key, xs[..|xs| - 1]);
    }
  }

  /** A candidate is the first of its key exactly when it heads that key's group. */
  lemma {:induction false} FirstsAreHeads(key: Candidate -> string, xs: seq<Candidate>, d: Candidate)
    ensures var g := Group(key, key(d), xs); d in FirstOfEach(key, xs) <==> g != [] && g[0] == d
  {
    if xs != [] {
      var x, front := xs[|xs| - 1], xs[..|xs| - 1];
      FirstsAreHeads(key, front, d);
      OccurringGroup(key, key(x), front);
    }
  }

  predicate DistinctUnder(key: Candidate -> string, xs: seq<Candidate>) {
    forall i, j :: 0 <= i < j < |xs| ==> key(xs[i]) != key(xs[j])
  }

  lemma {:induction false} FirstsDistinct(key: Candidate -> string, xs: seq<Candidate>)
    ensures DistinctUnder(key, FirstOfEach(key, xs))
  {
    if xs != [] {
      var x, front := xs[|xs| - 1], xs[..|xs| - 1];
      FirstsDistinct(key, front);
      FirstsAreIn(key, front);
      var fs := FirstOfEach(key, front);
      if key(x) !in Occurring(key, front) {
        var gs := fs + [x];
        forall i, j | 0 <= i < j < |gs|
          ensures key(gs[i]) != key(gs[j])
        {
          assert gs[i] == fs[i] && fs[i] in fs;
          if j < |fs| {
            assert gs[j] == fs[j];
          } else {
            OccurringIff(key, fs[i], front);
          }
        }
        assert FirstOfEach(key, xs) == gs;
      }
    }
  }

  /** The first with the key of `c`. */
  lemma {:induction false} FirstFor(key: Candidate -> string, xs: seq<Candidate>, c: Candidate) returns (f: Candidate)
    requires c in xs
    ensures f in FirstOfEach(key, xs) && key(f) == key(c)
  {
    var x, front := xs[|xs| - 1], xs[..|xs| - 1];
    if key(x) == key(c) && key(x) !in Occurring(key, front) {
      f := x;
    } else {
      OccurringIff(key, c, front);
      var y := c;
      if c !in front {
        y :| y in front && key(y) == key(c);
      }
      f := FirstFor(key, front, y);
    }
  }

  lemma {:induction false} GroupOfDistinct(key: Candidate -> string, k: string, xs: seq<Candidate>)
    requires DistinctUnder(key, xs)
    ensures |Group(key, k, xs)| <= 1
  {
    if xs != [] {
      var front := xs[..|xs| - 1];
      GroupOfDistinct(key, k, front);
      GroupMembers(key, k, front);
      var g := Group(key, k, front);
      if g != [] {
        assert g[0] in g;
        var i :| 0 <= i < |front| && front[i] == g[0];
        assert xs[i] == g[0];
      }
    }
  }

  lemma {:induction false} FirstsOfDistinct(key: Candidate -> string, xs: seq<Candidate>)
    requires DistinctUnder(key, xs)
    ensures FirstOfEach(key, xs) == xs
  {
    if xs != [] {
      var x, front := xs[|xs| - 1], xs[..|xs| - 1];
      FirstsOfDistinct(key, front);
      GroupOfDistinct(key, key(x), xs);
      OccurringGroup(key, key(x), front);
    }
  }

  lemma {:induction false} NoCollisions(kind: CollisionKind, key: Candidate -> string, ks: seq<string>,
                                        xs: seq<Candidate>)
    requires DistinctUnder(key, xs)
    ensures Collisions(kind, key, ks, xs) == []
  {
    if ks != [] {
      GroupOfDistinct(key, ks[|ks| - 1], xs);
      NoCollisions(kind, key, ks[..|ks| - 1], xs);
    }
  }

  /** Survivors differ even after normalisation, and every candidate is
      represented by a survivor with its normal form. */
  lemma SurvivorsDistinct(cands: seq<Candidate>)
    ensures var kept := Kept(cands);
      forall i, j :: 0 <= i < j < |kept| ==> Normalise(kept[i].source) != Normalise(kept[j].source)
    ensures forall c :: c in cands ==> exists f :: f in Kept(cands) && Normalise(f.source) == Normalise(c.source)
  {
    TwoPassesAreOne(cands);
    FirstsDistinct(NormalKey(), cands);
    forall c | c in cands
      ensures exists f :: f in Kept(cands) && Normalise(f.source) == Normalise(c.source)
    {
      var f := FirstFor(NormalKey(), cands, c);
      assert NormalKey()(f) == NormalKey()(c);
    }
    var kept := Kept(cands);
    forall i, j | 0 <= i < j < |kept|
      ensures Normalise(kept[i].source) != Normalise(kept[j].source)
    {
      assert NormalKey()(kept[i]) != NormalKey()(kept[j]);
    }
  }

  /** Deduplicating again changes nothing and reports nothing. */
  lemma DedupIdempotent(cands: seq<Candidate>)
    ensures Kept(Kept(cands)) == Kept(cands)
    ensures ByteCollisions(Kept(cands)) == [] && NormalCollisions(Kept(cands)) == []
  {
    var kept := Kept(cands);
    TwoPassesAreOne(cands);
    FirstsDistinct(NormalKey(), cands);
    forall i, j | 0 <= i < j < |kept|
      ensures SourceKey()(kept[i]) != SourceKey()(kept[j])
    {
      assert NormalKey()(kept[i]) != NormalKey()(kept[j]);
    }
    FirstsOfDistinct(SourceKey(), kept);
    FirstsOfDistinct(NormalKey(), kept);
    NoCollisions(ByteIdentical, SourceKey(), Occurring(SourceKey(), kept), kept);
    NoCollisions(WhitespaceNormalised, NormalKey(), Occurring(NormalKey(), kept), kept);
  }

  // ---- Nothing is lost ----

  function Dropped(collisions: seq<Collision>): seq<Candidate> {
    if collisions == [] then []
    else Dropped(collisions[..|collisions| - 1]) + collisions[|collisions| - 1].dropped
  }

  lemma {:induction false} DroppedConcat(a: seq<Collision>, b: seq<Collision>)
    ensures Dropped(a + b) == Dropped(a) + Dropped(b)
  {
    if b == [] {
      assert a + b == a;
    } else {
      assert (a + b)[..|a + b| - 1] == a + b[..|b| - 1];
      DroppedConcat(a, b[..|b| - 1]);
    }
  }

  function Tail(g: seq<Candidate>): seq<Candidate> {
    if g == [] then [] else g[1..]
  }

  lemma CollisionStep(kind: CollisionKind, key: Candidate -> string, ks: seq<string>, k: string, xs: seq<Candidate>)
    ensures Dropped(Collisions(kind, key, ks + [k], xs)) ==
            Dropped(Collisions(kind, key, ks, xs)) + Tail(Group(key, k, xs))
  {
    var g := Group(key, k, xs);
    CollisionsSnoc(kind, key, ks, k, xs);
    DroppedConcat(Collisions(kind, key, ks, xs), GroupCollision(kind, g));
    if |g| > 1 {
      assert Dropped([Collision(kind, g[0], g[1..])]) == g[1..];
    }
  }

  lemma TailGrows(key: Candidate -> string, k: string, front: seq<Candidate>, x: Candidate)
    requires Group(key, k, front) != []
    ensures multiset(Tail(Group(key, k, front + [x]))) ==
            multiset(Tail(Group(key, k, front))) + if key(x) == k then multiset{x} else multiset{}
  {
    assert (front + [x])[..|front|] == front;
    var g := Group(key, k, front);
    if key(x) == k {
      assert Tail(g + [x]) == Tail(g) + [x];
    }
  }

  /** A new candidate at the end is dropped with its group, if it has one. */
  lemma {:induction false} DroppedGrows(kind: CollisionKind, key: Candidate -> string, ks: seq<string>,
                                        front: seq<Candidate>, x: Candidate)
    requires Distinct(ks) && Grouped(key, ks, front)
    ensures multiset(Dropped(Collisions(kind, key, ks, front + [x]))) ==
            multiset(Dropped(Collisions(kind, key, ks, front))) + if key(x) in ks then multiset{x} else multiset{}
  {
    if ks != [] {
      var k, rest := ks[|ks| - 1], ks[..|ks| - 1];
      assert ks == rest + [k];
      assert Distinct(rest) && Grouped(key, rest, front);
      DroppedGrows(kind, key, rest, front, x);
      TailGrows(key, k, front, x);
      CollisionStep(kind, key, rest, k, front);
      CollisionStep(kind, key, rest, k, front + [x]);
    }
  }

  lemma OldKeyDrops(kind: CollisionKind, key: Candidate -> string, front: seq<Candidate>, x: Candidate)
    requires key(x) in Occurring(key, front)
    ensures FirstOfEach(key, front + [x]) == FirstOfEach(key, front)
    ensures multiset(PassDropped(kind, key, front + [x])) == multiset(PassDropped(kind, key, front)) + multiset{x}
  {
    var xs, ks := front + [x], Occurring(key, front);
    assert xs[..|front|] == front && xs[..|xs|] == xs;
    OldKeyStep(key, xs, |front|);
    OccurringDistinct(key, front);
    OccurringGroups(key, front);
    DroppedGrows(kind, key, ks, front, x);
  }

  lemma NewKeyKeeps(kind: CollisionKind, key: Candidate -> string, front: seq<Candidate>, x: Candidate)
    requires key(x) !in Occurring(key, front)
    ensures FirstOfEach(key, front + [x]) == FirstOfEach(key, front) + [x]
    ensures multiset(PassDropped(kind, key, front + [x])) == multiset(PassDropped(kind, key, front))
  {
    var xs, ks := front + [x], Occurring(key, front);
    assert xs[..|front|] == front && xs[..|xs|] == xs;
    NewKeyStep(key, xs, |front|);
    OccurringDistinct(key, front);
    OccurringGroups(key, front);
    DroppedGrows(kind, key, ks, front, x);
    CollisionStep(kind, key, ks, key(x), xs);
    OccurringGroup(key, key(x), front);
    assert Group(key, key(x), xs) == [x];
  }

  /** What the collisions of one pass over `xs` drop. */
  function PassDropped(kind: CollisionKind, key: Candidate -> string, xs: seq<Candidate>): seq<Candidate> {
    Dropped(Collisions(kind, key, Occurring(key, xs), xs))
  }

  /** A pass splits its input into what it keeps and what its collisions drop. */
  lemma {:induction false} PassConserves(kind: CollisionKind, key: Candidate -> string, xs: seq<Candidate>)
    ensures multiset(xs) == multiset(FirstOfEach(key, xs)) + multiset(PassDropped(kind, key, xs))
  {
    if xs != [] {
      var x, front := xs[|xs| - 1], xs[..|xs| - 1];
      assert xs == front + [x];
      PassConserves(kind, key, front);
      if key(x) in Occurring(key, front) {
        OldKeyDrops(kind, key, front, x);
      } else {
        NewKeyKeeps(kind, key, front, x);
      }
    }
  }

  /** Deduplication loses nothing: kept plus dropped is what went in. */
  lemma DedupConserves(cands: seq<Candidate>)
    ensures multiset(cands) ==
            multiset(Kept(cands)) + multiset(Dropped(ByteCollisions(cands) + NormalCollisions(cands)))
  {
    PassConserves(ByteIdentical, SourceKey(), cands);
    PassConserves(WhitespaceNormalised, NormalKey(), AfterBytes(cands));
    DroppedConcat(ByteCollisions(cands), NormalCollisions(cands));
  }

  /** `d` was dropped in favour of `r` by one of these collisions. */
  ghost predicate DroppedFor(collisions: seq<Collision>, d: Candidate, r: Candidate) {
    exists i :: 0 <= i < |collisions| && collisions[i].representative == r && d in collisions[i].dropped
  }

  lemma {:induction false} CollisionOf(kind: CollisionKind, key: Candidate -> string, ks: seq<string>,
                                       xs: seq<Candidate>, k: string)
    returns (i: nat)
    requires k in ks && |Group(key, k, xs)| > 1
    ensures var cs := Collisions(kind, key, ks, xs); var g := Group(key, k, xs);
      i < |cs| && cs[i] == Collision(kind, g[0], g[1..])
  {
    var last := ks[|ks| - 1];
    if last == k {
      i := |Collisions(kind, key, ks, xs)| - 1;
    } else {
      i := CollisionOf(kind, key, ks[..|ks| - 1], xs, k);
    }
  }

  /** One pass: a candidate is kept, or its group's head is and it is dropped for it. */
  lemma HopToHead(kind: CollisionKind, key: Candidate -> string, xs: seq<Candidate>, d: Candidate)
    returns (r: Candidate)
    requires d in xs
    ensures r in FirstOfEach(key, xs) && key(r) == key(d)
    ensures r == d || DroppedFor(Collisions(kind, key, Occurring(key, xs), xs), d, r)
  {
    var k := key(d);
    var g := Group(key, k, xs);
    OccurringIff(key, d, xs);
    GroupMembers(key, k, xs);
    FirstsCount(key, xs);
    var n :| 0 <= n < |Occurring(key, xs)| && Occurring(key, xs)[n] == k;
    r := g[0];
    FirstIsHead(key, xs, n);
    assert r == FirstOfEach(key, xs)[n] && r in g;
    if r != d {
      assert d in g;
      var m :| 0 <= m < |g| && g[m] == d;
      assert g[1..][m - 1] == d;
      var i := CollisionOf(kind, key, Occurring(key, xs), xs, k);
    }
  }

  /** Every candidate reaches a survivor with its normal form in at most two
      hops from dropped to representative. */
  lemma ReachesSurvivor(cands: seq<Candidate>, d: Candidate) returns (mid: Candidate, survivor: Candidate)
    requires d in cands
    ensures survivor in Kept(cands) && Normalise(survivor.source) == Normalise(d.source)
    ensures mid == d || DroppedFor(ByteCollisions(cands), d, mid)
    ensures survivor == mid || DroppedFor(NormalCollisions(cands), mid, survivor)
  {
    mid := HopToHead(ByteIdentical, SourceKey(), cands, d);
    survivor := HopToHead(WhitespaceNormalised, NormalKey(), AfterBytes(cands), mid);
    assert SourceKey()(mid) == SourceKey()(d);
    assert NormalKey()(survivor) == NormalKey()(mid);
  }
}
