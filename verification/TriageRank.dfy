/** `rank_candidates`: the order in which surviving tests are delivered. */
module TriageRank {
  import opened Text
  import opened Options
  import opened TriageDedup

  function VerdictPriority(tag: string): int {
    if tag == "accept" then 0
    else if tag == "flag" then 1
    else if tag == "reject" then 2
    else 99
  }

  function MutationPriority(tag: string): int {
    if tag == "killed" then 0
    else if tag == "no_mutation" then 1
    else if tag == "error" then 2
    else if tag == "survived" then 3
    else 99
  }

  function StabilityPriority(tag: string): int {
    if tag == "stable" then 0
    else if tag == "no_mutation" then 1
    else if tag == "error" then 2
    else if tag == "flaky" then 3
    else if tag == "consistent_fail" then 4
    else 99
  }

  datatype Key = Key(verdict: int, mutation: int, stability: int, coverage: real, testId: string)

  function RankKey(c: Candidate): Key {
    Key(VerdictPriority(c.verdict.verdictLabel),
        MutationPriority(Lower(c.verdict.mutation)),
        StabilityPriority(Lower(c.verdict.stability)),
        -c.verdict.coverageDelta,
        c.testId)
  }

  /** Python's `<=` on the key tuples. */
  predicate KeyLeq(a: Key, b: Key) {
    if a.verdict != b.verdict then a.verdict < b.verdict
    else if a.mutation != b.mutation then a.mutation < b.mutation
    else if a.stability != b.stability then a.stability < b.stability
    else if a.coverage != b.coverage then a.coverage < b.coverage
    else StringLeq(a.testId, b.testId)
  }

  lemma KeyLeqTotal(a: Key, b: Key)
    ensures KeyLeq(a, b) || KeyLeq(b, a)
    ensures KeyLeq(a, b) && KeyLeq(b, a) ==> a == b
  {
    StringLeqTotal(a.testId, b.testId);
  }

  lemma KeyLeqTransitive(a: Key, b: Key, c: Key)
    requires KeyLeq(a, b) && KeyLeq(b, c)
    ensures KeyLeq(a, c)
  {
    if StringLeq(a.testId, b.testId) && StringLeq(b.testId, c.testId) {
      StringLeqTransitive(a.testId, b.testId, c.testId);
    }
  }

  // ---- The stable sort, for any key ----

  function Insert(key: Candidate -> Key, x: Candidate, ys: seq<Candidate>): seq<Candidate> {
    if ys == [] || !KeyLeq(key(ys[0]), key(x)) then [x] + ys
    else [ys[0]] + Insert(key, x, ys[1..])
  }

  /** `sorted(xs, key=key)`: each candidate goes after those it does not beat. */
  function SortBy(key: Candidate -> Key, xs: seq<Candidate>): seq<Candidate> {
    if xs == [] then [] else Insert(key, xs[|xs| - 1], SortBy(key, xs[..|xs| - 1]))
  }

  function Rank(candidates: seq<Candidate>): seq<Candidate> {
    SortBy(RankKey, candidates)
  }

  predicate Sorted(key: Candidate -> Key, ys: seq<Candidate>) {
    forall i, j :: 0 <= i < j < |ys| ==> KeyLeq(key(ys[i]), key(ys[j]))
  }

  lemma {:induction false} InsertPermutes(key: Candidate -> Key, x: Candidate, ys: seq<Candidate>)
    ensures multiset(Insert(key, x, ys)) == multiset(ys) + multiset{x}
  {
    if ys != [] && KeyLeq(key(ys[0]), key(x)) {
      InsertPermutes(key, x, ys[1..]);
      assert ys == [ys[0]] + ys[1..];
    }
  }

  predicate BelowAll(key: Candidate -> Key, k: Key, ys: seq<Candidate>) {
    forall i :: 0 <= i < |ys| ==> KeyLeq(k, key(ys[i]))
  }

  lemma BelowAllPermuted(key: Candidate -> Key, k: Key, ys: seq<Candidate>, zs: seq<Candidate>)
    requires BelowAll(key, k, ys) && multiset(zs) == multiset(ys)
    ensures BelowAll(key, k, zs)
  {
    forall i | 0 <= i < |zs|
      ensures KeyLeq(k, key(zs[i]))
    {
      assert zs[i] in multiset(ys);
    }
  }

  lemma ConsSorted(key: Candidate -> Key, y: Candidate, ys: seq<Candidate>)
    ensures Sorted(key, [y] + ys) <==> BelowAll(key, key(y), ys) && Sorted(key, ys)
  {
    var all := [y] + ys;
    if Sorted(key, all) {
      forall i, j | 0 <= i < j < |ys|
        ensures KeyLeq(key(ys[i]), key(ys[j]))
      {
        assert all[i + 1] == ys[i] && all[j + 1] == ys[j];
      }
      forall j | 0 <= j < |ys|
        ensures KeyLeq(key(y), key(ys[j]))
      {
        assert all[0] == y && all[j + 1] == ys[j];
      }
    }
  }

  lemma {:induction false} InsertSorted(key: Candidate -> Key, x: Candidate, ys: seq<Candidate>)
    requires Sorted(key, ys)
    ensures Sorted(key, Insert(key, x, ys))
  {
    if ys != [] {
      var y, rest := ys[0], ys[1..];
      assert ys == [y] + rest;
      ConsSorted(key, y, rest);
      KeyLeqTotal(key(y), key(x));
      if KeyLeq(key(y), key(x)) {
        InsertSorted(key, x, rest);
        InsertPermutes(key, x, rest);
        assert BelowAll(key, key(y), rest + [x]);
        BelowAllPermuted(key, key(y), rest + [x], Insert(key, x, rest));
        ConsSorted(key, y, Insert(key, x, rest));
      } else {
        forall i | 0 <= i < |ys|
          ensures KeyLeq(key(x), key(ys[i]))
        {
          if i > 0 {
            assert ys[i] == rest[i - 1];
            KeyLeqTransitive(key(x), key(y), key(ys[i]));
          }
        }
        ConsSorted(key, x, ys);
      }
    }
  }

  lemma {:induction false} SortedPermutation(key: Candidate -> Key, xs: seq<Candidate>)
    ensures Sorted(key, SortBy(key, xs))
    ensures multiset(SortBy(key, xs)) == multiset(xs)
  {
    if xs != [] {
      var x, front := xs[|xs| - 1], xs[..|xs| - 1];
      assert xs == front + [x];
      SortedPermutation(key, front);
      InsertSorted(key, x, SortBy(key, front));
      InsertPermutes(key, x, SortBy(key, front));
    }
  }

  /** In a list of tags, best first, `a` stands no later than `b`; a tag that is not
      in the list comes after all of them. */
  predicate NotAfter(tags: seq<string>, a: string, b: string) {
    forall k :: 0 <= k < |tags| && tags[k] == b ==> a in tags[..k + 1]
  }

  const VERDICTS := ["accept", "flag", "reject"]
  const MUTATIONS := ["killed", "no_mutation", "error", "survived"]
  const STABILITIES := ["stable", "no_mutation", "error", "flaky", "consistent_fail"]

  predicate UpTo(tags: seq<string>, k: nat, a: string)
    requires k < |tags|
  {
    exists i :: 0 <= i <= k && tags[i] == a
  }

  lemma UpToIff(tags: seq<string>, k: nat, a: string)
    requires k < |tags|
    ensures a in tags[..k + 1] <==> UpTo(tags, k, a)
  {
    if UpTo(tags, k, a) {
      var i :| 0 <= i <= k && tags[i] == a;
      assert tags[..k + 1][i] == a;
    }
  }

  lemma VerdictOrder(a: string, b: string)
    requires VerdictPriority(a) <= VerdictPriority(b)
    ensures NotAfter(VERDICTS, a, b)
  {
    forall k | 0 <= k < |VERDICTS| && VERDICTS[k] == b
      ensures a in VERDICTS[..k + 1]
    {
      assert VerdictPriority(VERDICTS[0]) == 0 && VerdictPriority(VERDICTS[1]) == 1;
      assert VERDICTS[VerdictPriority(a)] == a;
      UpToIff(VERDICTS, k, a);
    }
  }

  lemma MutationOrder(a: string, b: string)
    requires MutationPriority(a) <= MutationPriority(b)
    ensures NotAfter(MUTATIONS, a, b)
  {
    forall k | 0 <= k < |MUTATIONS| && MUTATIONS[k] == b
      ensures a in MUTATIONS[..k + 1]
    {
      assert MUTATIONS[MutationPriority(a)] == a;
      UpToIff(MUTATIONS, k, a);
    }
  }

  lemma StabilityOrder(a: string, b: string)
    requires StabilityPriority(a) <= StabilityPriority(b)
    ensures NotAfter(STABILITIES, a, b)
  {
    forall k | 0 <= k < |STABILITIES| && STABILITIES[k] == b
      ensures a in STABILITIES[..k + 1]
    {
      assert STABILITIES[StabilityPriority(a)] == a;
      UpToIff(STABILITIES, k, a);
    }
  }

  /** What comes earlier is at least as good, signal by signal. */
  lemma RankPrefers(xs: seq<Candidate>, i: nat, j: nat)
    requires i < j < |Rank(xs)|
    ensures var a, b := Rank(xs)[i].verdict, Rank(xs)[j].verdict;
      NotAfter(VERDICTS, a.verdictLabel, b.verdictLabel) &&
      (a.verdictLabel == b.verdictLabel ==> NotAfter(MUTATIONS, Lower(a.mutation), Lower(b.mutation))) &&
      (a.verdictLabel == b.verdictLabel && Lower(a.mutation) == Lower(b.mutation) ==>
        NotAfter(STABILITIES, Lower(a.stability), Lower(b.stability))) &&
      (a.verdictLabel == b.verdictLabel && Lower(a.mutation) == Lower(b.mutation) &&
          Lower(a.stability) == Lower(b.stability) ==>
        a.coverageDelta > b.coverageDelta ||
        (a.coverageDelta == b.coverageDelta && StringLeq(Rank(xs)[i].testId, Rank(xs)[j].testId)))
  {
    SortedPermutation(RankKey, xs);
    BetterKey(Rank(xs)[i], Rank(xs)[j]);
  }

  lemma BetterKey(a: Candidate, b: Candidate)
    requires KeyLeq(RankKey(a), RankKey(b))
    ensures NotAfter(VERDICTS, a.verdict.verdictLabel, b.verdict.verdictLabel)
    ensures a.verdict.verdictLabel == b.verdict.verdictLabel ==>
      NotAfter(MUTATIONS, Lower(a.verdict.mutation), Lower(b.verdict.mutation))
    ensures (a.verdict.verdictLabel == b.verdict.verdictLabel &&
             Lower(a.verdict.mutation) == Lower(b.verdict.mutation)) ==>
      NotAfter(STABILITIES, Lower(a.verdict.stability), Lower(b.verdict.stability))
  {
    VerdictOrder(a.verdict.verdictLabel, b.verdict.verdictLabel);
    if a.verdict.verdictLabel == b.verdict.verdictLabel {
      MutationOrder(Lower(a.verdict.mutation), Lower(b.verdict.mutation));
      if Lower(a.verdict.mutation) == Lower(b.verdict.mutation) {
        StabilityOrder(Lower(a.verdict.stability), Lower(b.verdict.stability));
      }
    }
  }

  // ---- Stability ----

  function WithKey(key: Candidate -> Key, k: Key, xs: seq<Candidate>): seq<Candidate> {
    Filter((x: Candidate) => key(x) == k, xs)
  }

  lemma {:induction false} WithKeyConcat(key: Candidate -> Key, k: Key, a: seq<Candidate>, b: seq<Candidate>)
    ensures WithKey(key, k, a + b) == WithKey(key, k, a) + WithKey(key, k, b)
  {
    if a == [] {
      assert a + b == b;
    } else {
      assert (a + b)[1..] == a[1..] + b;
      WithKeyConcat(key, k, a[1..], b);
    }
  }

  lemma OneWithKey(key: Candidate -> Key, k: Key, x: Candidate)
    ensures WithKey(key, k, [x]) == if key(x) == k then [x] else []
  {
    var keep := (y: Candidate) => key(y) == k;
    assert Filter(keep, [x]) == (if keep(x) then [x] else []) + Filter(keep, []);
  }

  lemma {:induction false} NoneWithKey(key: Candidate -> Key, k: Key, ys: seq<Candidate>)
    requires forall i :: 0 <= i < |ys| ==> key(ys[i]) != k
    ensures WithKey(key, k, ys) == []
  {
    if ys != [] {
      NoneWithKey(key, k, ys[1..]);
    }
  }

  lemma {:induction false} InsertIsStable(key: Candidate -> Key, k: Key, x: Candidate, ys: seq<Candidate>)
    requires Sorted(key, ys)
    ensures WithKey(key, k, Insert(key, x, ys)) == WithKey(key, k, ys) + (if key(x) == k then [x] else [])
  {
    if ys != [] {
      var y, rest := ys[0], ys[1..];
      assert ys == [y] + rest;
      ConsSorted(key, y, rest);
      if KeyLeq(key(y), key(x)) {
        InsertIsStable(key, k, x, rest);
      } else if key(x) == k {
        forall i | 0 <= i < |ys|
          ensures key(ys[i]) != k
        {
          assert ys[i] == if i == 0 then y else rest[i - 1];
          KeyLeqTotal(key(y), key(ys[i]));
        }
        NoneWithKey(key, k, ys);
        assert ([x] + ys)[1..] == ys;
      } else {
        assert ([x] + ys)[1..] == ys;
      }
    }
  }

  /** Candidates with one key stay in input order. */
  lemma {:induction false} SortIsStable(key: Candidate -> Key, k: Key, xs: seq<Candidate>)
    ensures WithKey(key, k, SortBy(key, xs)) == WithKey(key, k, xs)
  {
    if xs != [] {
      var x, front := xs[|xs| - 1], xs[..|xs| - 1];
      assert xs == front + [x];
      SortIsStable(key, k, front);
      SortedPermutation(key, front);
      InsertIsStable(key, k, x, SortBy(key, front));
      WithKeyConcat(key, k, front, [x]);
      OneWithKey(key, k, x);
    }
  }

  // ---- Independence of the input order ----

  /** No two different candidates of `xs` share a whole rank key. */
  ghost predicate KeysSeparate(key: Candidate -> Key, xs: seq<Candidate>) {
    forall a, b :: a in xs && b in xs && key(a) == key(b) ==> a == b
  }

  lemma WithoutHead(ys: seq<Candidate>)
    requires ys != []
    ensures multiset(ys[1..]) == multiset(ys) - multiset{ys[0]}
  {
    assert ys == [ys[0]] + ys[1..];
  }

  lemma SortedTail(key: Candidate -> Key, ys: seq<Candidate>)
    requires Sorted(key, ys) && ys != []
    ensures Sorted(key, ys[1..])
  {
    assert ys == [ys[0]] + ys[1..];
    ConsSorted(key, ys[0], ys[1..]);
  }

  /** A shared key means a shared candidate, between two sequences. */
  predicate KeysMatch(key: Candidate -> Key, ys: seq<Candidate>, zs: seq<Candidate>) {
    forall i, j :: 0 <= i < |ys| && 0 <= j < |zs| && key(ys[i]) == key(zs[j]) ==> ys[i] == zs[j]
  }

  lemma TailsMatch(key: Candidate -> Key, ys: seq<Candidate>, zs: seq<Candidate>)
    requires KeysMatch(key, ys, zs) && multiset(ys) == multiset(zs) && ys != [] && zs != [] && ys[0] == zs[0]
    requires Sorted(key, ys) && Sorted(key, zs)
    ensures KeysMatch(key, ys[1..], zs[1..]) && multiset(ys[1..]) == multiset(zs[1..])
    ensures Sorted(key, ys[1..]) && Sorted(key, zs[1..])
  {
    WithoutHead(ys);
    WithoutHead(zs);
    SortedTail(key, ys);
    SortedTail(key, zs);
  }

  lemma {:induction false} SortedIsUnique(key: Candidate -> Key, ys: seq<Candidate>, zs: seq<Candidate>)
    requires KeysMatch(key, ys, zs) && multiset(ys) == multiset(zs)
    requires Sorted(key, ys) && Sorted(key, zs)
    ensures ys == zs
  {
    assert |multiset(ys)| == |ys| && |multiset(zs)| == |zs|;
    if ys != [] {
      SameHead(key, ys, zs);
      TailsMatch(key, ys, zs);
      SortedIsUnique(key, ys[1..], zs[1..]);
      assert ys == [ys[0]] + ys[1..] && zs == [zs[0]] + zs[1..];
    }
  }

  lemma SameHead(key: Candidate -> Key, ys: seq<Candidate>, zs: seq<Candidate>)
    requires KeysMatch(key, ys, zs) && multiset(ys) == multiset(zs)
    requires Sorted(key, ys) && Sorted(key, zs) && ys != [] && zs != []
    ensures ys[0] == zs[0]
  {
    var y, z := ys[0], zs[0];
    assert y in multiset(zs) && z in multiset(ys);
    var i :| 0 <= i < |zs| && zs[i] == y;
    var j :| 0 <= j < |ys| && ys[j] == z;
    KeyLeqTotal(key(y), key(z));
  }

  lemma SeparateMatch(key: Candidate -> Key, xs: seq<Candidate>, ys: seq<Candidate>, zs: seq<Candidate>)
    requires KeysSeparate(key, xs) && multiset(ys) == multiset(xs) == multiset(zs)
    ensures KeysMatch(key, ys, zs)
  {
    forall i, j | 0 <= i < |ys| && 0 <= j < |zs| && key(ys[i]) == key(zs[j])
      ensures ys[i] == zs[j]
    {
      assert ys[i] in multiset(xs) && zs[j] in multiset(xs);
    }
  }

  /** With separate keys a candidate set has one ranking, whatever order it
      comes in. */
  lemma RankIsUnique(xs: seq<Candidate>, ys: seq<Candidate>)
    requires KeysSeparate(RankKey, xs) && multiset(ys) == multiset(xs)
    ensures Sorted(RankKey, ys) ==> ys == Rank(xs)
    ensures Rank(ys) == Rank(xs)
  {
    SortedPermutation(RankKey, xs);
    SortedPermutation(RankKey, ys);
    SeparateMatch(RankKey, xs, Rank(xs), Rank(ys));
    SortedIsUnique(RankKey, Rank(xs), Rank(ys));
    if Sorted(RankKey, ys) {
      SeparateMatch(RankKey, xs, Rank(xs), ys);
      SortedIsUnique(RankKey, Rank(xs), ys);
    }
  }

  ghost predicate DistinctIds(xs: seq<Candidate>) {
    forall i, j :: 0 <= i < j < |xs| ==> xs[i].testId != xs[j].testId
  }

  lemma DistinctIdsSeparate(xs: seq<Candidate>)
    requires DistinctIds(xs)
    ensures KeysSeparate(RankKey, xs)
  {
    forall a, b | a in xs && b in xs && RankKey(a) == RankKey(b)
      ensures a == b
    {
      var i :| 0 <= i < |xs| && xs[i] == a;
      var j :| 0 <= j < |xs| && xs[j] == b;
      assert i == j by {
        assert xs[i].testId == xs[j].testId;
      }
    }
  }

  /** Two different candidates with one key: the order they come in shows. */
  lemma SharedKeyShows(rest: seq<Candidate>, a: Candidate, b: Candidate)
    requires a != b && RankKey(a) == RankKey(b)
    ensures Rank(rest + [a, b]) != Rank(rest + [b, a])
  {
    var k := RankKey(a);
    SortIsStable(RankKey, k, rest + [a, b]);
    SortIsStable(RankKey, k, rest + [b, a]);
    WithKeyConcat(RankKey, k, rest, [a, b]);
    WithKeyConcat(RankKey, k, rest, [b, a]);
    var w := WithKey(RankKey, k, rest);
    PairWithKey(k, a, b);
    PairWithKey(k, b, a);
    assert (w + [a, b])[|w|] != (w + [b, a])[|w|];
  }

  lemma PairWithKey(k: Key, a: Candidate, b: Candidate)
    requires RankKey(a) == k && RankKey(b) == k
    ensures WithKey(RankKey, k, [a, b]) == [a, b]
  {
    OneWithKey(RankKey, k, b);
    assert [a, b][1..] == [b];
    assert [a, b][1..] == [b];
    assert WithKey(RankKey, k, [a, b]) == [a] + WithKey(RankKey, k, [b]);
  }

  lemma Without(xs: seq<Candidate>, a: Candidate) returns (rest: seq<Candidate>)
    requires a in xs
    ensures multiset(xs) == multiset(rest) + multiset{a}
  {
    var i :| 0 <= i < |xs| && xs[i] == a;
    rest := xs[..i] + xs[i + 1..];
    assert xs == xs[..i] + [a] + xs[i + 1..];
  }

  lemma TakeOut(xs: seq<Candidate>, a: Candidate, b: Candidate) returns (rest: seq<Candidate>)
    requires a in xs && b in xs && a != b
    ensures multiset(rest + [a, b]) == multiset(xs) && multiset(rest + [b, a]) == multiset(xs)
  {
    var most := Without(xs, a);
    assert b in multiset(xs);
    assert b in multiset(most);
    rest := Without(most, b);
  }

  ghost predicate OrderFree(xs: seq<Candidate>) {
    forall ys :: multiset(ys) == multiset(xs) ==> Rank(ys) == Rank(xs)
  }

  lemma SeparateIsFree(xs: seq<Candidate>)
    requires KeysSeparate(RankKey, xs)
    ensures OrderFree(xs)
  {
    forall ys | multiset(ys) == multiset(xs)
      ensures Rank(ys) == Rank(xs)
    {
      RankIsUnique(xs, ys);
    }
  }

  lemma SharedIsNotFree(xs: seq<Candidate>, a: Candidate, b: Candidate)
    requires a in xs && b in xs && RankKey(a) == RankKey(b) && a != b
    ensures !OrderFree(xs)
  {
    var rest := TakeOut(xs, a, b);
    SharedKeyShows(rest, a, b);
  }

  /** Ranking forgets the input order exactly when no two different candidates
      share a rank key; distinct test ids are enough. */
  lemma OrderFreeIff(xs: seq<Candidate>)
    ensures OrderFree(xs) <==> KeysSeparate(RankKey, xs)
    ensures DistinctIds(xs) ==> OrderFree(xs)
  {
    if KeysSeparate(RankKey, xs) {
      SeparateIsFree(xs);
    } else {
      var a, b :| a in xs && b in xs && RankKey(a) == RankKey(b) && a != b;
      SharedIsNotFree(xs, a, b);
    }
    if DistinctIds(xs) {
      DistinctIdsSeparate(xs);
    }
  }

  // ---- Buckets of the ranking ----

  function Labelled(tag: string, xs: seq<Candidate>): seq<Candidate> {
    Filter((c: Candidate) => c.verdict.verdictLabel == tag, xs)
  }

  lemma {:induction false} NoneLabelled(tag: string, xs: seq<Candidate>)
    ensures Labelled(tag, xs) == [] <==> forall c :: c in xs ==> c.verdict.verdictLabel != tag
  {
    if xs != [] {
      NoneLabelled(tag, xs[1..]);
      assert xs == [xs[0]] + xs[1..];
    }
  }

  lemma LabelledCons(tag: string, y: Candidate, rest: seq<Candidate>)
    ensures Labelled(tag, [y] + rest) == (if y.verdict.verdictLabel == tag then [y] else []) + Labelled(tag, rest)
  {
    assert ([y] + rest)[1..] == rest;
  }

  predicate HasLabel(c: Candidate, tag: string) {
    c.verdict.verdictLabel == tag
  }

  /** Nothing labelled `a` comes after something labelled `b`. */
  predicate Before(a: string, b: string, ys: seq<Candidate>) {
    forall i, j :: 0 <= i < j < |ys| ==> !(HasLabel(ys[i], b) && HasLabel(ys[j], a))
  }

  lemma SortedAcceptsFirst(ys: seq<Candidate>)
    requires Sorted(RankKey, ys)
    ensures Before("accept", "flag", ys)
  {
    forall i, j | 0 <= i < j < |ys|
      ensures !(HasLabel(ys[i], "flag") && HasLabel(ys[j], "accept"))
    {
      assert KeyLeq(RankKey(ys[i]), RankKey(ys[j]));
    }
  }

  lemma BucketsCons(a: string, b: string, y: Candidate, rest: seq<Candidate>)
    requires a != b && (HasLabel(y, a) || HasLabel(y, b)) && Labelled(a, rest) + Labelled(b, rest) == rest
    requires HasLabel(y, b) ==> Labelled(a, rest) == []
    ensures Labelled(a, [y] + rest) + Labelled(b, [y] + rest) == [y] + rest
  {
    LabelledCons(a, y, rest);
    LabelledCons(b, y, rest);
  }

  lemma NoneAfter(a: string, b: string, y: Candidate, rest: seq<Candidate>)
    requires Before(a, b, [y] + rest) && HasLabel(y, b)
    ensures Labelled(a, rest) == []
  {
    var ys := [y] + rest;
    forall c | c in rest
      ensures !HasLabel(c, a)
    {
      var j :| 0 <= j < |rest| && rest[j] == c;
      assert ys[0] == y && c == ys[j + 1];
    }
    NoneLabelled(a, rest);
  }

  lemma {:induction false} BucketsOfOrdered(a: string, b: string, ys: seq<Candidate>)
    requires a != b && Before(a, b, ys) && forall i :: 0 <= i < |ys| ==> HasLabel(ys[i], a) || HasLabel(ys[i], b)
    ensures Labelled(a, ys) + Labelled(b, ys) == ys
  {
    if ys != [] {
      var y, rest := ys[0], ys[1..];
      BucketsOfOrdered(a, b, rest);
      assert [y] + rest == ys;
      if HasLabel(y, b) {
        NoneAfter(a, b, y, rest);
      }
      BucketsCons(a, b, y, rest);
    }
  }

  lemma {:induction false} LabelledIn(tag: string, xs: seq<Candidate>)
    ensures forall c :: c in Labelled(tag, xs) <==> c in xs && c.verdict.verdictLabel == tag
  {
    if xs != [] {
      LabelledIn(tag, xs[1..]);
      assert xs == [xs[0]] + xs[1..];
    }
  }

  /** Committed followed by flagged is the ranking itself, with nothing lost or
      moved, exactly when every candidate is one or the other. */
  lemma BucketsAreTheRanking(kept: seq<Candidate>)
    ensures Labelled("accept", Rank(kept)) + Labelled("flag", Rank(kept)) == Rank(kept) <==>
            forall c :: c in kept ==> Wanted(c)
  {
    var r := Rank(kept);
    SortedPermutation(RankKey, kept);
    assert forall c :: c in kept <==> c in multiset(kept);
    assert forall c :: c in r <==> c in multiset(r);
    if forall c :: c in kept ==> Wanted(c) {
      SortedAcceptsFirst(r);
      forall i | 0 <= i < |r|
        ensures HasLabel(r[i], "accept") || HasLabel(r[i], "flag")
      {
        assert r[i] in r;
        assert Wanted(r[i]);
      }
      BucketsOfOrdered("accept", "flag", r);
    }
    LabelledIn("accept", r);
    LabelledIn("flag", r);
  }
}
