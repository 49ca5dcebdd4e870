/** The lint ratchet. */
module RatchetLint {
  import opened Options

  // A change may not add violations to a file it touches. Ruff is a function of a
  // file's content and path.

  /** The rule codes ruff reports for a content judged under a path. */
  type Ruff = (string, string) -> seq<string>

  /** A working tree. */
  type Tree = map<string, string>

  datatype Regression = Regression(path: string, code: string, baseN: nat, headN: nat)

  /** The codes of a report, each once, as a `Counter` lists them. */
  function Codes(report: seq<string>): (codes: seq<string>)
    ensures forall c :: c in codes <==> c in report
  {
    if report == [] then []
    else
      var codes := Codes(report[..|report| - 1]);
      var last := report[|report| - 1];
      assert report == report[..|report| - 1] + [last];
      if last in codes then codes else codes + [last]
  }

  function RegressionsOf(path: string, codes: seq<string>, head: multiset<string>, base: multiset<string>)
    : seq<Regression>
  {
    if codes == [] then []
    else
      var code := codes[|codes| - 1];
      RegressionsOf(path, codes[..|codes| - 1], head, base) +
      if head[code] > base[code] then [Regression(path, code, base[code], head[code])] else []
  }

  /** The dict and its order after the codes `seen`. */
  ghost predicate Counted(seen: seq<string>, order: seq<string>, counts: map<string, nat>) {
    order == Codes(seen) && (forall c :: c in counts <==> c in seen) &&
    forall c :: c in counts ==> counts[c] == multiset(seen)[c]
  }

  lemma CountedSnoc(seen: seq<string>, order: seq<string>, counts: map<string, nat>, code: string)
    requires Counted(seen, order, counts)
    ensures Counted(seen + [code], if code in counts then order else order + [code],
                    counts[code := if code in counts then counts[code] + 1 else 1])
  {
    assert (seen + [code])[..|seen|] == seen;
  }

  method CountCodes(report: seq<string>) returns (order: seq<string>, counts: map<string, nat>)
    ensures Counted(report, order, counts)
  {
    order, counts := [], map[];
    ghost var seen: seq<string> := [];
    for i := 0 to |report|
      invariant |seen| == i && seen <= report && Counted(seen, order, counts)
    {
      var code := report[i];
      CountedSnoc(seen, order, counts, code);
      seen := seen + [code];
      if code in counts {
        counts := counts[code := counts[code] + 1];
      } else {
        order := order + [code];
        counts := counts[code := 1];
      }
    }
    assert seen == report;
  }

  /** `regressions`; `baseReport` is empty for a file the base does not have. */
  method Regressions(path: string, headReport: seq<string>, baseReport: seq<string>) returns (out: seq<Regression>)
    ensures out == RegressionsOf(path, Codes(headReport), multiset(headReport), multiset(baseReport))
    ensures out == [] <==> multiset(headReport) <= multiset(baseReport)
    ensures forall r :: r in out <==> Rises(path, headReport, baseReport, r)
  {
    var order, headCounts := CountCodes(headReport);
    var _, baseCounts := CountCodes(baseReport);
    out := [];
    for i := 0 to |order|
      invariant out == RegressionsOf(path, order[..i], multiset(headReport), multiset(baseReport))
    {
      assert order[..i + 1][..i] == order[..i];
      var code := order[i];
      var headN := headCounts[code];
      var baseN := if code in baseCounts then baseCounts[code] else 0;
      if headN > baseN {
        out := out + [Regression(path, code, baseN, headN)];
      }
    }
    assert order[..|order|] == order;
    NoRegressionIff(path, headReport, baseReport);
    forall r
      ensures r in out <==> Rises(path, headReport, baseReport, r)
    {
      ListedIff(path, headReport, baseReport, r);
    }
  }

  /** The rule is violated more often in the head than in the base, with both counts. */
  ghost predicate Rises(path: string, headReport: seq<string>, baseReport: seq<string>, r: Regression) {
    r.path == path && r.headN == multiset(headReport)[r.code] && r.baseN == multiset(baseReport)[r.code] &&
    r.headN > r.baseN
  }

  lemma {:induction false} ListedAmong(path: string, codes: seq<string>, head: multiset<string>,
                                       base: multiset<string>, r: Regression)
    ensures r in RegressionsOf(path, codes, head, base) <==>
      r.code in codes && head[r.code] > base[r.code] && r == Regression(path, r.code, base[r.code], head[r.code])
  {
    if codes != [] {
      var front := codes[..|codes| - 1];
      ListedAmong(path, front, head, base, r);
      assert codes == front + [codes[|codes| - 1]];
    }
  }

  /** Exactly the rules whose count has risen are listed, each with its two counts. */
  lemma ListedIff(path: string, headReport: seq<string>, baseReport: seq<string>, r: Regression)
    ensures r in RegressionsOf(path, Codes(headReport), multiset(headReport), multiset(baseReport)) <==>
            Rises(path, headReport, baseReport, r)
  {
    ListedAmong(path, Codes(headReport), multiset(headReport), multiset(baseReport), r);
    assert multiset(headReport)[r.code] > 0 ==> r.code in multiset(headReport);
  }

  lemma {:induction false} NoneAmong(path: string, codes: seq<string>, head: multiset<string>, base: multiset<string>)
    ensures RegressionsOf(path, codes, head, base) == [] <==> forall c :: c in codes ==> head[c] <= base[c]
  {
    if codes != [] {
      var front := codes[..|codes| - 1];
      NoneAmong(path, front, head, base);
      assert codes == front + [codes[|codes| - 1]];
    }
  }

  /** No regression is reported exactly when every rule is violated at most as
      often as on the base: inclusion of multisets. */
  lemma NoRegressionIff(path: string, headReport: seq<string>, baseReport: seq<string>)
    ensures RegressionsOf(path, Codes(headReport), multiset(headReport), multiset(baseReport)) == [] <==>
            multiset(headReport) <= multiset(baseReport)
  {
    NoneAmong(path, Codes(headReport), multiset(headReport), multiset(baseReport));
    if forall c :: c in Codes(headReport) ==> multiset(headReport)[c] <= multiset(baseReport)[c] {
      forall c
        ensures multiset(headReport)[c] <= multiset(baseReport)[c]
      {
        assert c in multiset(headReport) ==> c in headReport;
      }
    }
  }

  // ---- Whole changes ----

  /** How often a file violates a rule; a file that is not there violates none. */
  function Violations(ruff: Ruff, tree: Tree, path: string, code: string): nat {
    if path in tree then multiset(ruff(tree[path], path))[code] else 0
  }

  /** `file_at_base`: the content the file is compared with. */
  function AtBase(base: Tree, renames: map<string, string>, path: string): Option<string> {
    var src := if path in renames then renames[path] else path;
    if src in base then Some(base[src]) else None
  }

  /** Listed as changed: git compares with the point where the branch left the base. */
  predicate Changed(fork: Tree, after: Tree, path: string) {
    path in after && (path !in fork || fork[path] != after[path])
  }

  /** The ratchet passes one touched file; it judges both contents as the new path. */
  predicate PassesFile(ruff: Ruff, base: Tree, after: Tree, renames: map<string, string>, path: string)
    requires path in after
  {
    var was := AtBase(base, renames, path);
    multiset(ruff(after[path], path)) <= if was.Some? then multiset(ruff(was.value, path)) else multiset{}
  }

  /** The ratchet passes a change: every gated file that was added, modified or
      renamed since `fork` passes against its content in `base`. */
  ghost predicate Passes(ruff: Ruff, gated: string -> bool, fork: Tree, base: Tree, after: Tree,
                         renames: map<string, string>) {
    forall path :: path in after && gated(path) && (Changed(fork, after, path) || path in renames) ==>
      PassesFile(ruff, base, after, renames, path)
  }

  /** The base has not moved since the branch left it. */
  ghost predicate PassesStep(ruff: Ruff, gated: string -> bool, before: Tree, after: Tree,
                             renames: map<string, string>) {
    Passes(ruff, gated, before, before, after, renames)
  }

  /** Passing means no more violations than on the base exactly if the branch did
      not already leave it with more: what the branch does not touch is not
      compared with a base that has improved meanwhile. */
  lemma ForkIff(ruff: Ruff, gated: string -> bool, fork: Tree, base: Tree, path: string, code: string)
    requires gated(path)
    ensures (forall after :: Passes(ruff, gated, fork, base, after, map[]) ==>
               Violations(ruff, after, path, code) <= Violations(ruff, base, path, code)) <==>
            Violations(ruff, fork, path, code) <= Violations(ruff, base, path, code)
  {
    if Violations(ruff, fork, path, code) <= Violations(ruff, base, path, code) {
      forall after | Passes(ruff, gated, fork, base, after, map[])
        ensures Violations(ruff, after, path, code) <= Violations(ruff, base, path, code)
      {
        if Changed(fork, after, path) {
          assert PassesFile(ruff, base, after, map[], path);
        }
      }
    } else {
      assert Passes(ruff, gated, fork, base, fork, map[]);
    }
  }

  /** A history of changes without renames, each of which the ratchet passed.
      Files may be deleted and come back. */
  ghost predicate PassedRun(ruff: Ruff, gated: string -> bool, trees: seq<Tree>) {
    |trees| > 0 && forall k :: 0 <= k < |trees| - 1 ==> PassesStep(ruff, gated, trees[k], trees[k + 1], map[])
  }

  lemma StepNeverRaises(ruff: Ruff, gated: string -> bool, before: Tree, after: Tree, path: string, code: string)
    requires PassesStep(ruff, gated, before, after, map[]) && gated(path)
    ensures Violations(ruff, after, path, code) <= Violations(ruff, before, path, code)
  {
    ForkIff(ruff, gated, before, before, path, code);
  }

  /** The ratchet only tightens: over any such history no rule is ever violated
      more often in a gated file than at any earlier point, and a file that was
      not there at the start never violates anything. */
  lemma {:induction false} RatchetOnlyTightens(ruff: Ruff, gated: string -> bool, trees: seq<Tree>, j: nat, k: nat,
                                               path: string, code: string)
    requires PassedRun(ruff, gated, trees) && j <= k < |trees| && gated(path)
    ensures Violations(ruff, trees[k], path, code) <= Violations(ruff, trees[j], path, code)
    ensures path !in trees[j] ==> Violations(ruff, trees[k], path, code) == 0
  {
    if j < k {
      RatchetOnlyTightens(ruff, gated, trees, j, k - 1, path, code);
      assert PassesStep(ruff, gated, trees[k - 1], trees[k - 1 + 1], map[]);
      StepNeverRaises(ruff, gated, trees[k - 1], trees[k], path, code);
    }
  }

  // ---- Renames ----

  /** The rule is no stricter on this content at the new path than at the old. */
  predicate NotStricter(ruff: Ruff, content: string, origin: string, path: string, code: string) {
    multiset(ruff(content, path))[code] <= multiset(ruff(content, origin))[code]
  }

  /** No passing change that renames `o` to `p` leaves `p` with more violations
      than `o` had. */
  ghost predicate RenameIsSafe(ruff: Ruff, gated: string -> bool, before: Tree, o: string, p: string, code: string) {
    forall after :: p in after && PassesStep(ruff, gated, before, after, map[p := o]) ==>
      Violations(ruff, after, p, code) <= Violations(ruff, before, o, code)
  }

  /** A rename is safe exactly if the rule is not stricter on the old content at
      the new path, which can be checked before the change: moving the file
      unedited is the worst that passes. */
  lemma RenameIff(ruff: Ruff, gated: string -> bool, before: Tree, o: string, p: string, code: string)
    requires o in before && gated(o) && gated(p) && o != p && p !in before
    ensures RenameIsSafe(ruff, gated, before, o, p, code) <==> NotStricter(ruff, before[o], o, p, code)
  {
    var moved := (before - {o})[p := before[o]];
    assert PassesStep(ruff, gated, before, moved, map[p := o]);
    if NotStricter(ruff, before[o], o, p, code) {
      forall after | p in after && PassesStep(ruff, gated, before, after, map[p := o])
        ensures Violations(ruff, after, p, code) <= Violations(ruff, before, o, code)
      {
        assert PassesFile(ruff, before, after, map[p := o], p);
      }
    } else {
      assert Violations(ruff, moved, p, code) > Violations(ruff, before, o, code);
    }
  }

  /** One history step with renames between gated paths, none of them to a place
      where the rule is stricter. */
  ghost predicate RenamingStep(ruff: Ruff, gated: string -> bool, before: Tree, after: Tree, code: string) {
    exists renames :: PassesStep(ruff, gated, before, after, renames) && SafeRenames(ruff, gated, before, renames, code)
  }

  ghost predicate SafeRenames(ruff: Ruff, gated: string -> bool, before: Tree, renames: map<string, string>,
                              code: string) {
    forall p :: p in renames ==>
      gated(renames[p]) && renames[p] in before && NotStricter(ruff, before[renames[p]], renames[p], p, code)
  }

  ghost predicate RenamingRun(ruff: Ruff, gated: string -> bool, trees: seq<Tree>, code: string) {
    |trees| > 0 && forall k :: 0 <= k < |trees| - 1 ==> RenamingStep(ruff, gated, trees[k], trees[k + 1], code)
  }

  lemma OriginBefore(ruff: Ruff, gated: string -> bool, before: Tree, after: Tree, path: string, code: string)
    returns (origin: string)
    requires RenamingStep(ruff, gated, before, after, code) && gated(path)
    ensures gated(origin) && Violations(ruff, after, path, code) <= Violations(ruff, before, origin, code)
  {
    var renames :| PassesStep(ruff, gated, before, after, renames) && SafeRenames(ruff, gated, before, renames, code);
    origin := path;
    if path in after && (Changed(before, after, path) || path in renames) {
      assert PassesFile(ruff, before, after, renames, path);
      if path in renames {
        origin := renames[path];
      }
    }
  }

  /** With renames a file is bounded by what it was at the start under some path,
      as long as every rename taken is to a place no stricter on what it moves. */
  lemma {:induction false} RenamedRunBounded(ruff: Ruff, gated: string -> bool, trees: seq<Tree>, k: nat,
                                             path: string, code: string)
    returns (origin: string)
    requires RenamingRun(ruff, gated, trees, code) && k < |trees| && gated(path)
    ensures gated(origin) && Violations(ruff, trees[k], path, code) <= Violations(ruff, trees[0], origin, code)
  {
    if k == 0 {
      origin := path;
    } else {
      assert RenamingStep(ruff, gated, trees[k - 1], trees[k - 1 + 1], code);
      var earlier := OriginBefore(ruff, gated, trees[k - 1], trees[k], path, code);
      origin := RenamedRunBounded(ruff, gated, trees, k - 1, earlier, code);
    }
  }

  /** Ruff does look at paths: moving a file from a place with per-file ignores
      passes, although nothing was violated before and the rule is violated
      after. */
  lemma RenameCanRaise(ruff: Ruff, gated: string -> bool, content: string, lenient: string, strict: string,
                       code: string)
    requires lenient != strict && gated(lenient) && gated(strict)
    requires ruff(content, lenient) == [] && ruff(content, strict) == [code]
    ensures var before, after := map[lenient := content], map[strict := content];
      PassesStep(ruff, gated, before, after, map[strict := lenient]) &&
      Violations(ruff, after, strict, code) == 1 &&
      forall p :: Violations(ruff, before, p, code) == 0
  {
    var before, after := map[lenient := content], map[strict := content];
    assert PassesStep(ruff, gated, before, after, map[strict := lenient]);
  }

  // ---- The gate ----

  datatype MypyVerdict = ToolFailed | NoRegression | MypyRegression(baseN: nat, headN: nat)

  /** The exit of `main`; a tool that did not run aborts it. */
  datatype Exit = Aborted | Red | Green

  /** Mypy could be run on the file as it is, and with its base content in place. */
  predicate MypyRan(mypy: (Tree, string) -> Option<nat>, files: Tree, baseSrc: Option<string>, path: string) {
    mypy(files, path).Some? && (baseSrc.Some? ==> mypy(files[path := baseSrc.value], path).Some?)
  }

  /** It found no error in a new file, and in an old one no more than with the base
      content in place. Only the one file differs between the two counts. */
  predicate NoMoreErrors(mypy: (Tree, string) -> Option<nat>, files: Tree, baseSrc: Option<string>, path: string) {
    MypyRan(mypy, files, baseSrc, path) &&
    if baseSrc.None? then mypy(files, path).value == 0
    else mypy(files, path).value <= mypy(files[path := baseSrc.value], path).value
  }

  /** The working tree. Mypy reads it whole; `mypy` counts the errors of one file
      and is None when the tool did not run. */
  class WorkTree {
    var files: Tree

    /** `mypy_regression`: the base content is put at the real path, measured and
        taken away again, whether or not the tool ran. */
    method CheckMypy(mypy: (Tree, string) -> Option<nat>, baseSrc: Option<string>, path: string)
      returns (v: MypyVerdict)
      requires path in files
      modifies this
      ensures files == old(files)
      ensures v.ToolFailed? <==> !MypyRan(mypy, old(files), baseSrc, path)
      ensures v.NoRegression? <==> NoMoreErrors(mypy, old(files), baseSrc, path)
      ensures v.MypyRegression? ==> Some(v.headN) == mypy(old(files), path)
      ensures v.MypyRegression? ==>
        Some(v.baseN) == if baseSrc.None? then Some(0) else mypy(old(files)[path := baseSrc.value], path)
    {
      var head := mypy(files, path);
      if head.None? {
        return ToolFailed;
      }
      var baseN := 0;
      if baseSrc.Some? {
        var headSrc := files[path];
        files := files[path := baseSrc.value];
        var base := mypy(files, path);
        files := files[path := headSrc];
        assert files == old(files);
        if base.None? {
          return ToolFailed;
        }
        baseN := base.value;
      }
      v := if head.value > baseN then MypyRegression(baseN, head.value) else NoRegression;
    }

    /** The ruff half of `main`. */
    method CheckRuff(ruff: Ruff, touched: seq<string>, base: Tree, renames: map<string, string>)
      returns (failures: seq<Regression>)
      requires forall i :: 0 <= i < |touched| ==> touched[i] in files
      ensures failures == [] <==> forall i :: 0 <= i < |touched| ==> PassesFile(ruff, base, files, renames, touched[i])
    {
      failures := [];
      for i := 0 to |touched|
        invariant failures == [] <==> forall k :: 0 <= k < i ==> PassesFile(ruff, base, files, renames, touched[k])
      {
        var path := touched[i];
        var was := AtBase(base, renames, path);
        var found := Regressions(path, ruff(files[path], path), if was.Some? then ruff(was.value, path) else []);
        failures := failures + found;
      }
    }

    /** `main` over the touched files: it is green exactly when every one passes
        ruff and, unless mypy is left out, mypy finds no more errors in any of
        them than with its base content in place; it aborts exactly when mypy
        could not be run on one. The tree is as before in every case. */
    method Gate(ruff: Ruff, mypy: (Tree, string) -> Option<nat>, noMypy: bool,
                touched: seq<string>, base: Tree, renames: map<string, string>)
      returns (exit: Exit)
      requires forall i :: 0 <= i < |touched| ==> touched[i] in files
      modifies this
      ensures files == old(files)
      ensures exit.Green? <==> forall i :: 0 <= i < |touched| ==>
        PassesFile(ruff, base, old(files), renames, touched[i]) &&
        (noMypy || NoMoreErrors(mypy, old(files), AtBase(base, renames, touched[i]), touched[i]))
      ensures !exit.Aborted? <==> noMypy || forall i :: 0 <= i < |touched| ==>
        MypyRan(mypy, old(files), AtBase(base, renames, touched[i]), touched[i])
    {
      var ruffRegressions := CheckRuff(ruff, touched, base, renames);
      var regressed := false;
      if !noMypy {
        for i := 0 to |touched|
          invariant files == old(files)
          invariant forall k :: 0 <= k < i ==>
            MypyRan(mypy, old(files), AtBase(base, renames, touched[k]), touched[k])
          invariant !regressed <==> forall k :: 0 <= k < i ==>
            NoMoreErrors(mypy, old(files), AtBase(base, renames, touched[k]), touched[k])
        {
          var v := CheckMypy(mypy, AtBase(base, renames, touched[i]), touched[i]);
          if v.ToolFailed? {
            return Aborted;
          }
          if v.MypyRegression? {
            regressed := true;
          }
        }
      }
      exit := if ruffRegressions != [] || regressed then Red else Green;
    }
  }
}
