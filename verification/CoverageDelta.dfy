/** What a generated test newly covers. */
module CoverageDelta {
  import opened Options

  // The snapshot built from a coverage report, and the difference of two snapshots.

  datatype FileCover = FileCover(file: string, lines: set<int>)

  /** `covered_lines`, in insertion order. */
  type Covered = seq<FileCover>

  predicate Distinct(c: Covered) {
    forall i, j :: 0 <= i < j < |c| ==> c[i].file != c[j].file
  }

  /** `covered_lines.get(file, frozenset())` */
  function Lookup(c: Covered, file: string): set<int> {
    if c == [] then {}
    else if c[|c| - 1].file == file then c[|c| - 1].lines
    else Lookup(c[..|c| - 1], file)
  }

  predicate Knows(c: Covered, file: string) {
    exists i :: 0 <= i < |c| && c[i].file == file
  }

  function FilePairs(f: FileCover): (p: set<(string, int)>)
    ensures forall file, n :: (file, n) in p <==> file == f.file && n in f.lines
  {
    set n | n in f.lines :: (f.file, n)
  }

  /** The covered lines as pairs of file and line number. */
  function Pairs(c: Covered): set<(string, int)> {
    if c == [] then {} else Pairs(c[..|c| - 1]) + FilePairs(c[|c| - 1])
  }

  /** `total_covered` */
  function TotalCovered(c: Covered): nat {
    if c == [] then 0 else TotalCovered(c[..|c| - 1]) + |c[|c| - 1].lines|
  }

  lemma {:induction false} PairsIff(c: Covered, file: string, n: int)
    requires Distinct(c)
    ensures (file, n) in Pairs(c) <==> n in Lookup(c, file)
  {
    if c != [] {
      var front, last := c[..|c| - 1], c[|c| - 1];
      PairsIff(front, file, n);
      if last.file == file && n in Lookup(front, file) {
        LookupKnows(front, file, n);
      }
    }
  }

  lemma {:induction false} LookupKnows(c: Covered, file: string, n: int)
    requires n in Lookup(c, file)
    ensures Knows(c, file)
  {
    var front := c[..|c| - 1];
    if c[|c| - 1].file != file {
      LookupKnows(front, file, n);
      var i :| 0 <= i < |front| && front[i].file == file;
      assert c[i].file == file;
    }
  }

  lemma SomeMember<T>(s: set<T>) returns (x: T)
    requires s != {}
    ensures x in s
  {
    x :| x in s;
  }

  /** A set of pairs with one first component is as large as the set of seconds. */
  lemma {:induction false} PairsWithOne<T>(file: string, s: set<T>, pairs: set<(string, T)>)
    requires forall p :: p in pairs <==> p.0 == file && p.1 in s
    ensures |pairs| == |s|
    decreases |s|
  {
    if s == {} {
      assert pairs == {};
    } else {
      var x := SomeMember(s);
      PairsWithOne(file, s - {x}, pairs - {(file, x)});
    }
  }

  lemma FilePairsCount(f: FileCover)
    ensures |FilePairs(f)| == |f.lines|
  {
    PairsWithOne(f.file, f.lines, FilePairs(f));
  }

  /** The total counts pairs: no line is counted twice. */
  lemma {:induction false} TotalIsPairs(c: Covered)
    requires Distinct(c)
    ensures TotalCovered(c) == |Pairs(c)|
  {
    if c != [] {
      var front, last := c[..|c| - 1], c[|c| - 1];
      TotalIsPairs(front);
      FilePairsCount(last);
      forall n | n in last.lines
        ensures (last.file, n) !in Pairs(front)
      {
        PairsIff(front, last.file, n);
        if n in Lookup(front, last.file) {
          LookupKnows(front, last.file, n);
        }
      }
      assert Pairs(front) !! FilePairs(last);
    }
  }

  // ---- The snapshot ----

  /** A `<line>`: None where the attribute is no number, or where there is no line
      number at all; hits that are not given are zero. */
  datatype LineEl = LineEl(number: Option<int>, hits: Option<int>)

  datatype ClassEl = ClassEl(filename: string, lines: seq<LineEl>)

  predicate WellFormedLine(l: LineEl) {
    l.number.Some? && l.hits.Some?
  }

  /** Some class element of this file has this line, run at least once. */
  ghost predicate Ran(classes: seq<ClassEl>, file: string, n: int) {
    file != "" &&
    exists i, j :: 0 <= i < |classes| && 0 <= j < |classes[i].lines| && classes[i].filename == file &&
      WellFormedLine(classes[i].lines[j]) && classes[i].lines[j].number.value == n &&
          classes[i].lines[j].hits.value >= 1
  }

  /** The numbers of the lines that ran, and how many lines there are. */
  function RanIn(lines: seq<LineEl>): set<int> {
    if lines == [] then {}
    else
      var l := lines[|lines| - 1];
      RanIn(lines[..|lines| - 1]) + if WellFormedLine(l) && l.hits.value >= 1 then {l.number.value} else {}
  }

  function CountLines(lines: seq<LineEl>): nat {
    if lines == [] then 0
    else CountLines(lines[..|lines| - 1]) + if WellFormedLine(lines[|lines| - 1]) then 1 else 0
  }

  /** `covered_lines.setdefault(file, set())` and then adding `ran` to it. */
  function Add(c: Covered, file: string, ran: set<int>): Covered {
    if c == [] then [FileCover(file, ran)]
    else if c[0].file == file then [FileCover(file, c[0].lines + ran)] + c[1..]
    else [c[0]] + Add(c[1..], file, ran)
  }

  function CoverOf(classes: seq<ClassEl>): Covered {
    if classes == [] then []
    else
      var front, c := CoverOf(classes[..|classes| - 1]), classes[|classes| - 1];
      if c.filename == "" then front else Add(front, c.filename, RanIn(c.lines))
  }

  lemma {:induction false} AddKeeps(c: Covered, file: string, ran: set<int>)
    requires Distinct(c)
    ensures Distinct(Add(c, file, ran))
    ensures forall f :: Knows(Add(c, file, ran), f) <==> Knows(c, f) || f == file
    ensures Pairs(Add(c, file, ran)) == Pairs(c) + FilePairs(FileCover(file, ran))
  {
    if c == [] {
      assert Add(c, file, ran)[..0] == c;
      assert Knows(Add(c, file, ran), file) by { assert Add(c, file, ran)[0].file == file; }
    } else {
      var head, rest := c[0], c[1..];
      assert c == [head] + rest;
      if head.file == file {
        AddToHead(head, rest, ran);
      } else {
        AddKeeps(rest, file, ran);
        PairsCons(head, rest);
        PairsCons(head, Add(rest, file, ran));
        KnowsCons(head, rest);
        KnowsCons(head, Add(rest, file, ran));
        DistinctCons(head, rest, file, ran);
      }
    }
  }

  /** The file is the first one that is known. */
  lemma AddToHead(head: FileCover, rest: Covered, ran: set<int>)
    requires Distinct([head] + rest)
    ensures var added := [FileCover(head.file, head.lines + ran)] + rest;
      Distinct(added) && (forall f :: Knows(added, f) <==> Knows([head] + rest, f)) && Knows(added, head.file) &&
      Pairs(added) == Pairs([head] + rest) + FilePairs(FileCover(head.file, ran))
  {
    var wider := FileCover(head.file, head.lines + ran);
    PairsCons(head, rest);
    PairsCons(wider, rest);
    KnowsCons(head, rest);
    KnowsCons(wider, rest);
    forall i, j | 0 <= i < j < |[wider] + rest|
      ensures ([wider] + rest)[i].file != ([wider] + rest)[j].file
    {
      assert ([wider] + rest)[i].file == ([head] + rest)[i].file;
      assert ([wider] + rest)[j].file == ([head] + rest)[j].file;
    }
  }

  lemma {:induction false} PairsCons(head: FileCover, rest: Covered)
    ensures Pairs([head] + rest) == FilePairs(head) + Pairs(rest)
  {
    if rest == [] {
      assert [head] + rest == [head] && [head][..0] == [];
    } else {
      assert ([head] + rest)[..|rest|] == [head] + rest[..|rest| - 1];
      PairsCons(head, rest[..|rest| - 1]);
    }
  }

  lemma KnowsCons(head: FileCover, rest: Covered)
    ensures forall f :: Knows([head] + rest, f) <==> f == head.file || Knows(rest, f)
  {
    forall f
      ensures Knows([head] + rest, f) <==> f == head.file || Knows(rest, f)
    {
      if f == head.file {
        assert ([head] + rest)[0].file == f;
      }
      if i :| 0 <= i < |rest| && rest[i].file == f {
        assert ([head] + rest)[i + 1].file == f;
      }
    }
  }

  lemma DistinctCons(head: FileCover, rest: Covered, file: string, ran: set<int>)
    requires Distinct([head] + rest) && head.file != file
    requires Distinct(Add(rest, file, ran)) &&
        forall f :: Knows(Add(rest, file, ran), f) <==> Knows(rest, f) || f == file
    ensures Distinct([head] + Add(rest, file, ran))
  {
    var added := Add(rest, file, ran);
    forall i | 0 <= i < |added|
      ensures added[i].file != head.file
    {
      assert Knows(added, added[i].file);
      if added[i].file != file {
        var k :| 0 <= k < |rest| && rest[k].file == added[i].file;
        assert ([head] + rest)[0] == head && ([head] + rest)[k + 1] == rest[k];
      }
    }
  }

  /** A snapshot covers exactly the lines some class element of the file says
      ran, however many elements the file is spread over. */
  lemma {:induction false} SnapshotIff(classes: seq<ClassEl>, file: string, n: int)
    ensures Distinct(CoverOf(classes))
    ensures (file, n) in Pairs(CoverOf(classes)) <==> Ran(classes, file, n)
  {
    if classes != [] {
      var front, c := classes[..|classes| - 1], classes[|classes| - 1];
      SnapshotIff(front, file, n);
      RanStep(front, c, file, n);
      assert classes == front + [c];
      if c.filename != "" {
        AddKeeps(CoverOf(front), c.filename, RanIn(c.lines));
      }
    }
  }

  lemma {:induction false} RanInIff(lines: seq<LineEl>, n: int)
    ensures n in RanIn(lines) <==>
      exists j :: 0 <= j < |lines| && WellFormedLine(lines[j]) && lines[j].number.value == n && lines[j].hits.value >= 1
  {
    if lines != [] {
      RanInIff(lines[..|lines| - 1], n);
    }
  }

  lemma RanStep(front: seq<ClassEl>, c: ClassEl, file: string, n: int)
    ensures Ran(front + [c], file, n) <==>
            Ran(front, file, n) || (file != "" && c.filename == file && n in RanIn(c.lines))
  {
    var all := front + [c];
    RanInIff(c.lines, n);
    if Ran(front, file, n) {
      var i, j :| 0 <= i < |front| && 0 <= j < |front[i].lines| && front[i].filename == file &&
        WellFormedLine(front[i].lines[j]) && front[i].lines[j].number.value == n && front[i].lines[j].hits.value >= 1;
      assert all[i] == front[i];
    }
    if file != "" && c.filename == file && n in RanIn(c.lines) {
      assert all[|front|] == c;
    }
  }

  method ReadLines(lines: seq<LineEl>) returns (ran: set<int>, total: nat)
    ensures ran == RanIn(lines) && total == CountLines(lines)
  {
    ran, total := {}, 0;
    for i := 0 to |lines|
      invariant ran == RanIn(lines[..i]) && total == CountLines(lines[..i])
    {
      assert lines[..i + 1][..i] == lines[..i];
      if WellFormedLine(lines[i]) {
        total := total + 1;
        if lines[i].hits.value >= 1 {
          ran := ran + {lines[i].number.value};
        }
      }
    }
    assert lines[..|lines|] == lines;
  }

  /** The line elements of the classes that name a file. */
  function TotalLines(classes: seq<ClassEl>): nat {
    if classes == [] then 0
    else
      var c := classes[|classes| - 1];
      TotalLines(classes[..|classes| - 1]) + if c.filename == "" then 0 else CountLines(c.lines)
  }

  /** The line elements that count, by position. */
  ghost function GoodLines(lines: seq<LineEl>): set<nat> {
    set i: nat | i < |lines| && WellFormedLine(lines[i])
  }

  lemma {:induction false} LinesCounted(lines: seq<LineEl>)
    ensures CountLines(lines) == |GoodLines(lines)|
  {
    if lines == [] {
      assert GoodLines(lines) == {};
    } else {
      var n := |lines| - 1;
      LinesCounted(lines[..n]);
      assert GoodLines(lines) == GoodLines(lines[..n]) + if WellFormedLine(lines[n]) then {n} else {};
    }
  }

  /** All the line elements of the classes that name a file, one after the other. */
  ghost function LinesOfFiles(classes: seq<ClassEl>): seq<LineEl> {
    if classes == [] then []
    else if classes[0].filename == "" then LinesOfFiles(classes[1..])
    else classes[0].lines + LinesOfFiles(classes[1..])
  }

  lemma {:induction false} CountConcat(a: seq<LineEl>, b: seq<LineEl>)
    ensures CountLines(a + b) == CountLines(a) + CountLines(b)
  {
    if b == [] {
      assert a + b == a;
    } else {
      assert (a + b)[..|a + b| - 1] == a + b[..|b| - 1];
      CountConcat(a, b[..|b| - 1]);
    }
  }

  lemma {:induction false} LinesOfSnoc(classes: seq<ClassEl>, c: ClassEl)
    ensures LinesOfFiles(classes + [c]) == LinesOfFiles(classes) + if c.filename == "" then [] else c.lines
  {
    if classes == [] {
      assert classes + [c] == [c] && [c][1..] == [];
    } else {
      assert (classes + [c])[1..] == classes[1..] + [c];
      LinesOfSnoc(classes[1..], c);
    }
  }

  /** The total is the number of well-formed line elements of the classes that name
      a file. */
  lemma TotalIsCounted(classes: seq<ClassEl>)
    ensures TotalLines(classes) == |GoodLines(LinesOfFiles(classes))|
  {
    TotalIsCount(classes);
    LinesCounted(LinesOfFiles(classes));
  }

  lemma {:induction false} TotalIsCount(classes: seq<ClassEl>)
    ensures TotalLines(classes) == CountLines(LinesOfFiles(classes))
  {
    if classes != [] {
      var front, c := classes[..|classes| - 1], classes[|classes| - 1];
      TotalIsCount(front);
      assert classes == front + [c];
      LinesOfSnoc(front, c);
      CountConcat(LinesOfFiles(front), if c.filename == "" then [] else c.lines);
    }
  }

  lemma {:induction false} RanIsCounted(lines: seq<LineEl>)
    ensures |RanIn(lines)| <= CountLines(lines)
  {
    if lines != [] {
      RanIsCounted(lines[..|lines| - 1]);
    }
  }

  /** However often a line is listed, no more lines are covered than there are. */
  lemma {:induction false} CoveredIsCounted(classes: seq<ClassEl>)
    ensures Distinct(CoverOf(classes))
    ensures |Pairs(CoverOf(classes))| <= TotalLines(classes)
  {
    if classes != [] {
      var front, c := classes[..|classes| - 1], classes[|classes| - 1];
      CoveredIsCounted(front);
      if c.filename != "" {
        var added := FileCover(c.filename, RanIn(c.lines));
        AddKeeps(CoverOf(front), c.filename, RanIn(c.lines));
        FilePairsCount(added);
        RanIsCounted(c.lines);
        assert |Pairs(CoverOf(front)) + FilePairs(added)| <= |Pairs(CoverOf(front))| + |FilePairs(added)|;
      }
    }
  }

  datatype Snapshot = Snapshot(covered: Covered, lineRate: real, totalLines: nat)

  /** The loop of `parse_coverage_xml` over the class elements. */
  method ReadClasses(lineRate: real, classes: seq<ClassEl>) returns (s: Snapshot)
    ensures s == Snapshot(CoverOf(classes), lineRate, TotalLines(classes))
    ensures Distinct(s.covered) && TotalCovered(s.covered) <= s.totalLines
  {
    var covered, totalLines := [], 0;
    for i := 0 to |classes|
      invariant covered == CoverOf(classes[..i]) && totalLines == TotalLines(classes[..i])
    {
      assert classes[..i + 1][..i] == classes[..i];
      if classes[i].filename != "" {
        var ran, counted := ReadLines(classes[i].lines);
        covered := Add(covered, classes[i].filename, ran);
        totalLines := totalLines + counted;
      }
    }
    assert classes[..|classes|] == classes;
    CoveredIsCounted(classes);
    TotalIsPairs(covered);
    s := Snapshot(covered, lineRate, totalLines);
  }

  // ---- The difference ----

  datatype Delta = Delta(newLines: set<(string, int)>, newFiles: nat, deltaPct: real, baselineTotal: nat,
                         afterTotal: nat)

  /** The files that went from no covered line to at least one. */
  function NewFiles(baseline: Covered, after: Covered): set<string> {
    if after == [] then {}
    else
      var f := after[|after| - 1];
      NewFiles(baseline, after[..|after| - 1]) +
      if f.lines != {} && Lookup(baseline, f.file) == {} then {f.file} else {}
  }

  lemma {:induction false} NewFilesLookup(baseline: Covered, after: Covered, file: string)
    requires Distinct(after)
    ensures file in NewFiles(baseline, after) <==> Lookup(after, file) != {} && Lookup(baseline, file) == {}
  {
    if after != [] {
      var front, f := after[..|after| - 1], after[|after| - 1];
      NewFilesLookup(baseline, front, file);
      if f.file == file && Lookup(front, file) != {} {
        var n := SomeMember(Lookup(front, file));
        LookupKnows(front, file, n);
      }
    }
  }

  lemma AddedPairs(baseline: Covered, f: FileCover)
    requires Distinct(baseline)
    ensures FilePairs(f) - Pairs(baseline) == FilePairs(FileCover(f.file, f.lines - Lookup(baseline, f.file)))
  {
    forall n
      ensures (f.file, n) in Pairs(baseline) <==> n in Lookup(baseline, f.file)
    {
      PairsIff(baseline, f.file, n);
    }
  }

  method ComputeDelta(baseline: Snapshot, after: Snapshot) returns (d: Delta)
    requires Distinct(baseline.covered) && Distinct(after.covered)
    ensures d.newLines == Pairs(after.covered) - Pairs(baseline.covered)
    ensures d.newFiles == |NewFiles(baseline.covered, after.covered)|
    ensures d.deltaPct == (after.lineRate - baseline.lineRate) * 100.0
    ensures d.baselineTotal == |Pairs(baseline.covered)| && d.afterTotal == |Pairs(after.covered)|
  {
    var newLines, newFiles := CollectNew(baseline.covered, after.covered);
    TotalIsPairs(baseline.covered);
    TotalIsPairs(after.covered);
    d := Delta(newLines, newFiles, (after.lineRate - baseline.lineRate) * 100.0,
               TotalCovered(baseline.covered), TotalCovered(after.covered));
  }

  /** What the loop has found in the files `cs`. */
  ghost predicate Found(base: Covered, cs: Covered, newLines: set<(string, int)>, newFiles: nat) {
    newLines == Pairs(cs) - Pairs(base) && newFiles == |NewFiles(base, cs)|
  }

  lemma DistinctPrefix(cs: Covered, n: nat)
    requires Distinct(cs) && n <= |cs|
    ensures Distinct(cs[..n])
  {
  }

  /** The loop of `compute_delta` over the files of the later snapshot. */
  method CollectNew(base: Covered, cs: Covered) returns (newLines: set<(string, int)>, newFiles: nat)
    requires Distinct(base) && Distinct(cs)
    ensures newLines == Pairs(cs) - Pairs(base)
    ensures newFiles == |NewFiles(base, cs)|
  {
    newLines, newFiles := {}, 0;
    for i := 0 to |cs|
      invariant Found(base, cs[..i], newLines, newFiles)
    {
      var f := cs[i];
      var known := Lookup(base, f.file);
      var added := f.lines - known;
      assert cs[..i] + [f] == cs[..i + 1];
      DistinctPrefix(cs, i + 1);
      FoundSnoc(base, cs[..i], f, newLines, newFiles);
      if added != {} {
        newLines := newLines + FilePairs(FileCover(f.file, added));
        if known == {} {
          newFiles := newFiles + 1;
        }
      }
    }
    assert cs[..|cs|] == cs;
  }

  lemma FoundSnoc(base: Covered, front: Covered, f: FileCover, newLines: set<(string, int)>, newFiles: nat)
    requires Distinct(base) && Distinct(front + [f]) && Found(base, front, newLines, newFiles)
    ensures var added := f.lines - Lookup(base, f.file);
      Found(base, front + [f],
            if added != {} then newLines + FilePairs(FileCover(f.file, added)) else newLines,
            if added != {} && Lookup(base, f.file) == {} then newFiles + 1 else newFiles)
  {
    LinesFound(base, front, f, newLines);
    FilesFound(base, front, f, newFiles);
  }

  lemma LinesFound(base: Covered, front: Covered, f: FileCover, newLines: set<(string, int)>)
    requires Distinct(base) && newLines == Pairs(front) - Pairs(base)
    ensures var added := f.lines - Lookup(base, f.file);
      (if added != {} then newLines + FilePairs(FileCover(f.file, added)) else newLines) ==
      Pairs(front + [f]) - Pairs(base)
  {
    NewLinesSnoc(base, front, f);
  }

  lemma FilesFound(base: Covered, front: Covered, f: FileCover, newFiles: nat)
    requires Distinct(base) && Distinct(front + [f]) && newFiles == |NewFiles(base, front)|
    ensures var known := Lookup(base, f.file);
      (if f.lines - known != {} && known == {} then newFiles + 1 else newFiles) == |NewFiles(base, front + [f])|
  {
    NewFilesSnoc(base, front, f);
    var known := Lookup(base, f.file);
    assert known == {} ==> f.lines - known == f.lines;
  }

  lemma NewLinesSnoc(base: Covered, front: Covered, f: FileCover)
    requires Distinct(base)
    ensures var added := f.lines - Lookup(base, f.file);
      Pairs(front + [f]) - Pairs(base) ==
      (Pairs(front) - Pairs(base)) + if added != {} then FilePairs(FileCover(f.file, added)) else {}
  {
    var added := f.lines - Lookup(base, f.file);
    assert (front + [f])[..|front|] == front;
    AddedPairs(base, f);
    assert added == {} ==> FilePairs(FileCover(f.file, added)) == {};
  }

  lemma NewFilesSnoc(base: Covered, front: Covered, f: FileCover)
    requires Distinct(front + [f])
    ensures |NewFiles(base, front + [f])| ==
            |NewFiles(base, front)| + if f.lines != {} && Lookup(base, f.file) == {} then 1 else 0
  {
    var all := front + [f];
    assert all[..|front|] == front;
    forall i | 0 <= i < |front|
      ensures front[i].file != f.file
    {
      assert all[i] == front[i] && all[|front|] == f;
    }
    assert Distinct(front) by {
      forall i, j | 0 <= i < j < |front|
        ensures front[i].file != front[j].file
      {
        assert all[i] == front[i] && all[j] == front[j];
      }
    }
    NewFilesLookup(base, front, f.file);
    if Lookup(front, f.file) != {} {
      var n := SomeMember(Lookup(front, f.file));
      LookupKnows(front, f.file, n);
    }
  }

  // ---- Algebra ----

  function NewLines(baseline: Covered, after: Covered): set<(string, int)> {
    Pairs(after) - Pairs(baseline)
  }

  /** The totals move by what is new less what is lost. */
  lemma TotalsBalance(baseline: Covered, after: Covered)
    requires Distinct(baseline) && Distinct(after)
    ensures TotalCovered(after) - TotalCovered(baseline) == |NewLines(baseline, after)| - |NewLines(after, baseline)|
  {
    TotalIsPairs(baseline);
    TotalIsPairs(after);
    var a, b := Pairs(after), Pairs(baseline);
    assert |a - b| == |a| - |a * b| && |b - a| == |b| - |b * a| && a * b == b * a;
  }

  /** Nothing is new over two steps that was not new in one of them; and all that
      was new in one of them stays new exactly when the second step neither
      loses what the first found nor finds again what the first had lost. */
  lemma DeltaTriangle(a: Covered, b: Covered, c: Covered)
    ensures NewLines(a, c) <= NewLines(a, b) + NewLines(b, c)
    ensures NewLines(a, c) == NewLines(a, b) + NewLines(b, c) <==>
            NewLines(a, b) !! NewLines(c, b) && NewLines(b, c) !! NewLines(b, a)
  {
    var found, refound := NewLines(a, b) * NewLines(c, b), NewLines(b, c) * NewLines(b, a);
    assert forall p :: p in found ==> p in NewLines(a, b) + NewLines(b, c) && p !in NewLines(a, c);
    assert forall p :: p in refound ==> p in NewLines(a, b) + NewLines(b, c) && p !in NewLines(a, c);
    assert forall p :: p in NewLines(a, b) + NewLines(b, c) && p !in NewLines(a, c) ==> p in found || p in refound;
  }

  /** A file counts as new exactly when the later snapshot has a line of it and the
      baseline has none. */
  lemma NewFilesIff(baseline: Covered, after: Covered, file: string)
    requires Distinct(baseline) && Distinct(after)
    ensures file in NewFiles(baseline, after) <==>
      (exists n :: (file, n) in Pairs(after)) && (forall n :: (file, n) !in Pairs(baseline))
  {
    forall n
      ensures (file, n) in Pairs(baseline) <==> n in Lookup(baseline, file)
      ensures (file, n) in Pairs(after) <==> n in Lookup(after, file)
    {
      PairsIff(baseline, file, n);
      PairsIff(after, file, n);
    }
    NewFilesLookup(baseline, after, file);
    if Lookup(after, file) != {} {
      var n := SomeMember(Lookup(after, file));
      assert (file, n) in Pairs(after);
    }
    if Lookup(baseline, file) != {} {
      var n := SomeMember(Lookup(baseline, file));
      assert (file, n) in Pairs(baseline);
    }
  }
}
