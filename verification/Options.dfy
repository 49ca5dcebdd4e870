/** Absent values, raised errors, and filtering. */
module Options {
  datatype Option<+T> = None | Some(value: T)

  datatype Result<+T> = Ok(value: T) | Raised(error: string)

  /** The elements to keep, in their order. */
  function Filter<T>(keep: T -> bool, xs: seq<T>): seq<T> {
    if xs == [] then []
    else (if keep(xs[0]) then [xs[0]] else []) + Filter(keep, xs[1..])
  }

  lemma {:induction false} FilterMembers<T>(keep: T -> bool, xs: seq<T>)
    ensures forall x :: x in Filter(keep, xs) <==> x in xs && keep(x)
  {
    if xs != [] {
      FilterMembers(keep, xs[1..]);
      assert xs == [xs[0]] + xs[1..];
    }
  }

  lemma {:induction false} FilterEmptyIff<T>(keep: T -> bool, xs: seq<T>)
    ensures Filter(keep, xs) == [] <==> forall x :: x in xs ==> !keep(x)
  {
    if xs != [] {
      FilterEmptyIff(keep, xs[1..]);
      assert xs == [xs[0]] + xs[1..];
    }
  }

  /** The selection begins with the first element that is kept. */
  lemma {:induction false} FilterHead<T>(keep: T -> bool, xs: seq<T>, i: nat)
    requires i < |xs| && keep(xs[i]) && forall j :: 0 <= j < i ==> !keep(xs[j])
    ensures Filter(keep, xs) != [] && Filter(keep, xs)[0] == xs[i]
  {
    if i > 0 {
      FilterHead(keep, xs[1..], i - 1);
    }
  }

  predicate AllOne<T(!new)>(s: set<T>) {
    forall p, q :: p in s && q in s ==> p == q
  }

  /** A set has at most one element exactly when any two of its elements are one. */
  lemma OneAtMost<T(!new)>(s: set<T>)
    ensures |s| <= 1 <==> AllOne(s)
  {
    if p :| p in s {
      var rest := s - {p};
      if q :| q in rest {
        assert p in s && q in s && {p, q} <= s;
        assert |s - {p, q}| == |s| - 2;
      } else {
        assert rest == {} && s == {p};
      }
    } else {
      assert s == {};
    }
  }
}
