/** What one Triager run does to the catalog, from the decisions to the entries
    that are saved. */
module CatalogRun {
  import opened Options
  import opened Text
  import opened TriageDedup
  import opened Catalog

  /** A decision to create gets a path that suits the framework. */
  function Enriched(c: Candidate, d: Decision, derive: (string, string) -> string): Decision {
    if d.Create? then Create(derive(c.testId, ShortOr(c.verdict.framework, "pytest"))) else d
  }

  function Decided(c: Candidate, catalog: Option<seq<Entry>>, derive: (string, string) -> string): Decision {
    Enriched(c, Decide(c, catalog), derive)
  }

  function Decisions(all: seq<Candidate>, catalog: Option<seq<Entry>>, derive: (string, string) -> string): map<string,
                     Decision> {
    if all == [] then map[]
    else
      var c := all[|all| - 1];
      var front := Decisions(all[..|all| - 1], catalog, derive);
      if Wanted(c) then front[c.testId := Decided(c, catalog, derive)] else front
  }

  /** Step 2b of `run_triager`. */
  method DecideAll(all: seq<Candidate>, catalog: Option<seq<Entry>>, derive: (string, string) -> string)
    returns (decisions: map<string, Decision>)
    ensures decisions == Decisions(all, catalog, derive)
  {
    decisions := map[];
    for i := 0 to |all|
      invariant decisions == Decisions(all[..i], catalog, derive)
    {
      assert all[..i + 1][..i] == all[..i];
      var c := all[i];
      if Wanted(c) {
        var base := Decide(c, catalog);
        if base.Create? {
          decisions := decisions[c.testId := Create(derive(c.testId, ShortOr(c.verdict.framework, "pytest")))];
        } else {
          decisions := decisions[c.testId := base];
        }
      }
    }
    assert all[..|all|] == all;
  }

  predicate HasDecider(all: seq<Candidate>, id: string) {
    exists c :: c in all && Wanted(c) && c.testId == id
  }

  /** The candidate whose decision counts for `id`: the last one with it. */
  function Decider(all: seq<Candidate>, id: string): (c: Candidate)
    requires HasDecider(all, id)
    ensures c in all && Wanted(c) && c.testId == id
  {
    var last := all[|all| - 1];
    if Wanted(last) && last.testId == id then last else Decider(all[..|all| - 1], id)
  }

  lemma {:induction false} DecisionIsDeciders(all: seq<Candidate>, catalog: Option<seq<Entry>>,
                                              derive: (string, string) -> string, id: string)
    ensures id in Decisions(all, catalog, derive) <==> HasDecider(all, id)
    ensures HasDecider(all, id) ==> Decisions(all, catalog, derive)[id] == Decided(Decider(all, id), catalog, derive)
  {
    if all != [] {
      var front, last := all[..|all| - 1], all[|all| - 1];
      DecisionIsDeciders(front, catalog, derive, id);
      assert forall c :: c in all <==> c in front || c == last;
    }
  }

  lemma {:induction false} FileIsFound(es: seq<Entry>, e: Entry)
    requires e in es
    ensures LastIndex(es, e.testFile) >= 0
  {
    if es[|es| - 1] != e {
      FileIsFound(es[..|es| - 1], e);
    }
  }

  /** Updates never miss: each names a file of the catalog it was decided on. */
  lemma DecidedTargets(all: seq<Candidate>, es: seq<Entry>, derive: (string, string) -> string, task: string,
                       now: string)
    ensures TargetsIn(Batch(Decisions(all, Some(es), derive), task, now), es)
  {
    var decisions := Decisions(all, Some(es), derive);
    forall id | id in decisions && decisions[id].Update?
      ensures LastIndex(es, decisions[id].target) >= 0
    {
      DecisionIsDeciders(all, Some(es), derive, id);
      var c := Decider(all, id);
      UpdateHitsNewestMatch(c, es);
      FileIsFound(es, Newest(Matches(c, es)));
    }
  }

  // ---- What is kept, counted and added ----

  predicate SameIdentity(e: Entry, e': Entry) {
    e'.testId == e.testId && e'.testFile == e.testFile && e'.framework == e.framework && e'.lane == e.lane &&
    e'.language == e.language && e'.coversAcs == e.coversAcs && e'.generatedByTask == e.generatedByTask &&
    e'.browsersTested == e.browsersTested && e'.targetRef == e.targetRef && e'.operatorLocked == e.operatorLocked
  }

  /** One run of the Triager over a catalog: the applied candidates `cs` are all
      accepted or flagged, and all were decided on. */
  ghost predicate CatalogStep(b: Batch, es: seq<Entry>, cs: seq<Candidate>, out: seq<Entry>) {
    AllChecked(es) && TargetsIn(b, es) && (forall i :: 0 <= i < |cs| ==> Wanted(cs[i])) &&
        AppliedAll(b, es, cs) == Ok(out)
  }

  lemma StepClosedForm(b: Batch, es: seq<Entry>, cs: seq<Candidate>, out: seq<Entry>)
    requires CatalogStep(b, es, cs, out)
    ensures out == Fates(b, es, cs) + Created(b, es, cs)
  {
    forall i | 0 <= i < |cs|
      ensures ValidLastVerdict(cs[i].verdict.verdictLabel)
    {
      assert Wanted(cs[i]);
    }
    MutationClosedForm(b, es, cs);
  }

  /** Every old entry keeps its place and its identity; its version counts
      exactly the candidates that update its file, and it is otherwise
      untouched if there are none. */
  lemma OldEntriesKept(b: Batch, es: seq<Entry>, cs: seq<Candidate>, out: seq<Entry>, i: nat)
    requires CatalogStep(b, es, cs, out) && i < |es|
    ensures i < |out| && SameIdentity(es[i], out[i])
    ensures LastIndex(es, es[i].testFile) == i ==>
      out[i].generationVersion == es[i].generationVersion + UpdateCount(b, cs, es[i].testFile)
    ensures out[i] == es[i] <==> LastIndex(es, es[i].testFile) != i || UpdateCount(b, cs, es[i].testFile) == 0
  {
    StepClosedForm(b, es, cs, out);
    assert out[i] == Fates(b, es, cs)[i];
  }

  predicate SameEvidence(a: Entry, b: Entry) {
    a.evidenceRun == b.evidenceRun && a.evidenceUrls == b.evidenceUrls
  }

  predicate NoEvidence(e: Entry) {
    e.evidenceRun == None && e.evidenceUrls == []
  }

  /** An updated entry carries the time of the run and the last verdict, and has
      lost the evidence of the run before: evidence survives exactly in entries
      that are not updated, or had none. */
  lemma UpdatedEntry(b: Batch, es: seq<Entry>, cs: seq<Candidate>, out: seq<Entry>, i: nat)
    requires CatalogStep(b, es, cs, out) && i < |es| <= |out|
    ensures out[i] != es[i] ==>
      out[i].generatedAt == b.now && out[i].lastVerdict == LastVerdict(b, cs, es[i].testFile) && NoEvidence(out[i])
    ensures SameEvidence(out[i], es[i]) <==>
      LastIndex(es, es[i].testFile) != i || UpdateCount(b, cs, es[i].testFile) == 0 || NoEvidence(es[i])
  {
    StepClosedForm(b, es, cs, out);
    assert out[i] == Fates(b, es, cs)[i];
  }

  ghost predicate DistinctFiles(es: seq<Entry>) {
    forall i, j :: 0 <= i < j < |es| ==> es[i].testFile != es[j].testFile
  }

  lemma AppendDistinct(es: seq<Entry>, e: Entry)
    requires DistinctFiles(es) && LastIndex(es, e.testFile) < 0
    ensures DistinctFiles(es + [e])
  {
    forall i | 0 <= i < |es|
      ensures es[i].testFile != e.testFile
    {
      FileIsFound(es, es[i]);
    }
  }

  /** The decision on `c` is to create `path`: the derived one, or the candidate's
      own file if none was derived. */
  ghost predicate CreatesAt(b: Batch, c: Candidate, path: string) {
    c.testId in b.decisions &&
    match b.decisions[c.testId]
    case Create(derived) => path == if derived == "" then c.testFile else derived
    case _ => false
  }

  /** The `k`-th candidate is the first to create `path`, which the catalog lacks. */
  ghost predicate FirstCreator(b: Batch, es: seq<Entry>, cs: seq<Candidate>, k: nat, path: string) {
    k < |cs| && CreatesAt(b, cs[k], path) &&
    !HasFile(es, path) && forall j :: 0 <= j < k ==> !CreatesAt(b, cs[j], path)
  }

  /** What is written down about a new test, field by field. */
  ghost predicate Registers(b: Batch, c: Candidate, e: Entry) {
    e.testId == c.testId && CreatesAt(b, c, e.testFile) &&
    e.framework == (if c.verdict.framework == "" then "pytest" else c.verdict.framework) &&
    e.lane == (if c.verdict.lane == "" then "unit" else c.verdict.lane) &&
    e.language == (if c.verdict.language == "" then "python" else c.verdict.language) &&
    e.coversAcs == c.verdict.coversAcs && e.lastVerdict == c.verdict.verdictLabel &&
    e.generatedAt == b.now && e.generatedByTask == b.task && e.generationVersion == 1 &&
    !e.operatorLocked && e.browsersTested == [] && e.targetRef == None && NoEvidence(e)
  }

  lemma CreatesAtIs(b: Batch, c: Candidate, path: string)
    ensures CreatesAt(b, c, path) <==> b.Creates(c) && path == b.CreatePath(c)
  {
  }

  lemma RegistersNew(b: Batch, c: Candidate, e: Entry)
    ensures Registers(b, c, e) <==> b.Creates(c) && e == b.NewEntry(c)
  {
    CreatesAtIs(b, c, e.testFile);
  }

  /** Whoever creates a file, it is somewhere afterwards. */
  lemma CreatedSomewhere(b: Batch, es: seq<Entry>, cs: seq<Candidate>, c: Candidate, path: string)
    requires c in cs && CreatesAt(b, c, path)
    ensures LastIndex(es, path) >= 0 || LastIndex(Created(b, es, cs), path) >= 0
  {
    CreatesAtIs(b, c, path);
    EveryFileIsThere(b, es, cs, c);
  }

  ghost predicate HasCreator(b: Batch, cs: seq<Candidate>, path: string) {
    exists j :: 0 <= j < |cs| && CreatesAt(b, cs[j], path)
  }

  ghost predicate HasFile(es: seq<Entry>, path: string) {
    exists i :: 0 <= i < |es| && es[i].testFile == path
  }

  lemma {:induction false} NoFileNoIndex(es: seq<Entry>, path: string)
    ensures LastIndex(es, path) >= 0 <==> HasFile(es, path)
  {
    if es != [] {
      var front := es[..|es| - 1];
      NoFileNoIndex(front, path);
      assert forall i :: 0 <= i < |front| ==> front[i] == es[i];
    }
  }

  /** A file that is nowhere yet has had no creator, and the other way round. */
  lemma {:induction false} CreatedFiles(b: Batch, es: seq<Entry>, cs: seq<Candidate>, path: string)
    ensures LastIndex(es, path) < 0 ==> (LastIndex(Created(b, es, cs), path) >= 0 <==> HasCreator(b, cs, path))
  {
    if HasCreator(b, cs, path) {
      var j :| 0 <= j < |cs| && CreatesAt(b, cs[j], path);
      CreatedSomewhere(b, es, cs, cs[j], path);
    }
    if cs != [] {
      var front, c := cs[..|cs| - 1], cs[|cs| - 1];
      CreatedFiles(b, es, front, path);
      CreatesAtIs(b, c, path);
      if b.Creates(c) {
        LastIndexConcat(Created(b, es, front), [b.NewEntry(c)], path);
      }
    }
  }

  ghost predicate IsCreation(b: Batch, es: seq<Entry>, cs: seq<Candidate>, e: Entry) {
    exists k: nat :: FirstCreator(b, es, cs, k, e.testFile) && Registers(b, cs[k], e)
  }

  lemma FirstCreatorStep(b: Batch, es: seq<Entry>, cs: seq<Candidate>, c: Candidate, path: string)
    ensures FirstCreator(b, es, cs + [c], |cs|, path) <==>
      !HasFile(es, path) && CreatesAt(b, c, path) && !HasCreator(b, cs, path)
    ensures forall k: nat :: k < |cs| ==>
      (FirstCreator(b, es, cs + [c], k, path) <==> FirstCreator(b, es, cs, k, path))
  {
    assert forall j :: 0 <= j < |cs| ==> (cs + [c])[j] == cs[j];
  }

  lemma IsCreationStep(b: Batch, es: seq<Entry>, cs: seq<Candidate>, c: Candidate, e: Entry)
    ensures IsCreation(b, es, cs + [c], e) <==>
      IsCreation(b, es, cs, e) || (FirstCreator(b, es, cs + [c], |cs|, e.testFile) && Registers(b, c, e))
  {
    FirstCreatorStep(b, es, cs, c, e.testFile);
    if IsCreation(b, es, cs, e) {
      var k: nat :| FirstCreator(b, es, cs, k, e.testFile) && Registers(b, cs[k], e);
      assert (cs + [c])[k] == cs[k];
    }
  }

  lemma CreatedSnoc(b: Batch, es: seq<Entry>, cs: seq<Candidate>, c: Candidate, e: Entry)
    ensures e in Created(b, es, cs + [c]) <==>
      e in Created(b, es, cs) || (FirstCreator(b, es, cs + [c], |cs|, e.testFile) && Registers(b, c, e))
  {
    assert (cs + [c])[..|cs|] == cs;
    RegistersNew(b, c, e);
    FirstCreatorStep(b, es, cs, c, e.testFile);
    CreatesAtIs(b, c, e.testFile);
    NoFileNoIndex(es, e.testFile);
    CreatedFiles(b, es, cs, e.testFile);
  }

  /** The new entries are exactly those of the candidates that are the first to
      create a file. */
  lemma {:induction false} CreatedIff(b: Batch, es: seq<Entry>, cs: seq<Candidate>, e: Entry)
    ensures e in Created(b, es, cs) <==> IsCreation(b, es, cs, e)
  {
    if cs != [] {
      var front, c := cs[..|cs| - 1], cs[|cs| - 1];
      assert cs == front + [c];
      CreatedIff(b, es, front, e);
      IsCreationStep(b, es, front, c, e);
      CreatedSnoc(b, es, front, c, e);
    }
  }

  lemma {:induction false} CreatedDistinct(b: Batch, es: seq<Entry>, cs: seq<Candidate>)
    ensures DistinctFiles(Created(b, es, cs))
  {
    if cs != [] {
      var front, c := cs[..|cs| - 1], cs[|cs| - 1];
      CreatedDistinct(b, es, front);
      if Created(b, es, cs) != Created(b, es, front) {
        AppendDistinct(Created(b, es, front), b.NewEntry(c));
      }
    }
  }

  lemma {:induction false} EveryFileIsThere(b: Batch, es: seq<Entry>, cs: seq<Candidate>, c: Candidate)
    requires c in cs && b.Creates(c)
    ensures LastIndex(es, b.CreatePath(c)) >= 0 || LastIndex(Created(b, es, cs), b.CreatePath(c)) >= 0
  {
    var front, last := cs[..|cs| - 1], cs[|cs| - 1];
    if c != last {
      EveryFileIsThere(b, es, front, c);
      var made := Created(b, es, front);
      LastIndexConcat(made, if Created(b, es, cs) == made then [] else [b.NewEntry(last)], b.CreatePath(c));
      assert made + [] == made;
    } else {
      var made := Created(b, es, front);
      LastIndexConcat(made, [b.NewEntry(last)], b.CreatePath(c));
    }
  }

  /** What is appended: one entry for the first candidate that creates each file the
      catalog lacks, with everything it says about the test, and nothing else. */
  lemma AppendedEntries(b: Batch, es: seq<Entry>, cs: seq<Candidate>, out: seq<Entry>, e: Entry)
    requires CatalogStep(b, es, cs, out)
    ensures |es| <= |out| && (e in out[|es|..] <==> IsCreation(b, es, cs, e))
  {
    StepClosedForm(b, es, cs, out);
    CreatedIff(b, es, cs, e);
    assert out[|es|..] == Created(b, es, cs);
  }

  /** The test a candidate creates is found by its criteria from then on: a lookup
      for any of them finds the entry of the new file, which says what the
      candidate says. */
  lemma CreatedIsFound(b: Batch, es: seq<Entry>, cs: seq<Candidate>, out: seq<Entry>, k: nat, path: string,
                       ac: string) returns (e: Entry)
    requires CatalogStep(b, es, cs, out) && FirstCreator(b, es, cs, k, path) && ac in cs[k].verdict.coversAcs
    ensures e in out && e.testFile == path && Registers(b, cs[k], e) && e in LookupByAc(out, ac)
  {
    CreatesAtIs(b, cs[k], path);
    e := b.NewEntry(cs[k]);
    RegistersNew(b, cs[k], e);
    AppendedEntries(b, es, cs, out, e);
    assert e in out[|es|..];
    LookupFinds(out, ac, e);
  }

  /** So the next run does not create a second test for such a criterion: it updates
      one that lists the criterion, or the operator has locked the first of them. */
  lemma NextRunFinds(b: Batch, es: seq<Entry>, cs: seq<Candidate>, out: seq<Entry>, k: nat, path: string, c: Candidate)
    requires CatalogStep(b, es, cs, out) && FirstCreator(b, es, cs, k, path)
    requires CandidateAc(c) != "" && CandidateAc(c) in cs[k].verdict.coversAcs
    ensures !Decide(c, Some(out)).Create?
    ensures Decide(c, Some(out)).Update? ==>
      exists e :: e in out && Covers(e, CandidateAc(c)) && Decide(c, Some(out)) == Update(e.testFile)
  {
    var e := CreatedIsFound(b, es, cs, out, k, path, CandidateAc(c));
    LookupFinds(out, CandidateAc(c), e);
    DecideMeans(c, Some(out));
    if Decide(c, Some(out)).Update? {
      UpdateHitsNewestMatch(c, out);
      LookupFinds(out, CandidateAc(c), Newest(Matches(c, out)));
    }
  }

  /** No candidate that is to be created is left without an entry for its file. */
  lemma CreatedFilesAreThere(b: Batch, es: seq<Entry>, cs: seq<Candidate>, out: seq<Entry>, c: Candidate, path: string)
    requires CatalogStep(b, es, cs, out) && c in cs && CreatesAt(b, c, path)
    ensures HasFile(out, path)
  {
    StepClosedForm(b, es, cs, out);
    CreatedSomewhere(b, es, cs, c, path);
    FatesIndex(b, es, cs, path);
    LastIndexConcat(Fates(b, es, cs), Created(b, es, cs), path);
  }

  lemma ConcatDistinct(a: seq<Entry>, made: seq<Entry>)
    requires DistinctFiles(a) && DistinctFiles(made)
    requires forall j :: 0 <= j < |made| ==> LastIndex(a, made[j].testFile) < 0
    ensures DistinctFiles(a + made)
  {
    forall i | 0 <= i < |a|
      ensures LastIndex(a, a[i].testFile) >= 0
    {
      FileIsFound(a, a[i]);
    }
  }

  /** A file is registered once, before and after. */
  lemma FilesStayDistinct(b: Batch, es: seq<Entry>, cs: seq<Candidate>, out: seq<Entry>)
    requires CatalogStep(b, es, cs, out) && DistinctFiles(es)
    ensures DistinctFiles(out)
  {
    StepClosedForm(b, es, cs, out);
    CreatedDistinct(b, es, cs);
    var fates, made := Fates(b, es, cs), Created(b, es, cs);
    assert forall i :: 0 <= i < |es| ==> fates[i].testFile == es[i].testFile;
    forall j | 0 <= j < |made|
      ensures LastIndex(fates, made[j].testFile) < 0
    {
      assert made[j] in made;
      CreatedIff(b, es, cs, made[j]);
      NoFileNoIndex(es, made[j].testFile);
      FatesIndex(b, es, cs, made[j].testFile);
    }
    ConcatDistinct(fates, made);
  }

  // ---- Locks ----

  ghost predicate LockedKept(es: seq<Entry>, out: seq<Entry>) {
    |es| <= |out| && forall i :: 0 <= i < |es| && es[i].operatorLocked ==> out[i] == es[i]
  }

  /** `c` updates an entry that is locked. */
  predicate HitsLocked(b: Batch, es: seq<Entry>, c: Candidate) {
    c.testId in b.decisions && b.decisions[c.testId].Update? && b.decisions[c.testId].target != "" &&
    var i := LastIndex(es, b.decisions[c.testId].target); i >= 0 && es[i].operatorLocked
  }

  lemma {:induction false} CountedIff(b: Batch, cs: seq<Candidate>, file: string)
    ensures UpdateCount(b, cs, file) > 0 <==> exists c :: c in cs && b.Updates(c, file)
  {
    if cs != [] {
      var front, last := cs[..|cs| - 1], cs[|cs| - 1];
      CountedIff(b, front, file);
      assert forall c :: c in cs <==> c in front || c == last;
    }
  }

  /** Locks hold exactly when no decision targets a locked entry. */
  lemma LockedKeptIff(b: Batch, es: seq<Entry>, cs: seq<Candidate>, out: seq<Entry>)
    requires CatalogStep(b, es, cs, out)
    ensures LockedKept(es, out) <==> forall c :: c in cs ==> !HitsLocked(b, es, c)
  {
    StepClosedForm(b, es, cs, out);
    forall i | 0 <= i < |es| && es[i].operatorLocked
      ensures out[i] != es[i] ==> exists c :: c in cs && HitsLocked(b, es, c)
    {
      OldEntriesKept(b, es, cs, out, i);
      CountedIff(b, cs, es[i].testFile);
      if out[i] != es[i] {
        var c :| c in cs && b.Updates(c, es[i].testFile);
        assert HitsLocked(b, es, c);
      }
    }
    forall c | c in cs && HitsLocked(b, es, c)
      ensures !LockedKept(es, out)
    {
      var i := LastIndex(es, b.decisions[c.testId].target);
      OldEntriesKept(b, es, cs, out, i);
      CountedIff(b, cs, es[i].testFile);
      assert b.Updates(c, es[i].testFile);
    }
  }

  /** The branch that loses a lock: the first match is free, so nothing is
      skipped, but the newest match, which is updated, is locked. */
  predicate BypassesLock(c: Candidate, es: seq<Entry>) {
    var matches := Matches(c, es);
    matches != [] && !matches[0].operatorLocked && Newest(matches).operatorLocked && Newest(matches).testFile != ""
  }

  lemma {:induction false} DistinctIndex(es: seq<Entry>, i: nat)
    requires DistinctFiles(es) && i < |es|
    ensures LastIndex(es, es[i].testFile) == i
  {
    if i < |es| - 1 {
      DistinctIndex(es[..|es| - 1], i);
    }
  }

  lemma HitsLockedIff(all: seq<Candidate>, es: seq<Entry>, derive: (string, string) -> string, task: string,
                      now: string, c: Candidate)
    requires DistinctFiles(es) && c in all && Wanted(c)
    ensures HitsLocked(Batch(Decisions(all, Some(es), derive), task, now), es, c) <==>
            BypassesLock(Decider(all, c.testId), es)
  {
    DecisionIsDeciders(all, Some(es), derive, c.testId);
    var d := Decider(all, c.testId);
    if Decide(d, Some(es)).Update? {
      UpdateHitsNewestMatch(d, es);
      var i :| 0 <= i < |es| && es[i] == Newest(Matches(d, es));
      DistinctIndex(es, i);
    }
  }

  /** In a whole run, operator locks survive exactly when no deciding candidate
      has a free first match and a locked newest one. */
  lemma RunKeepsLocksIff(all: seq<Candidate>, cs: seq<Candidate>, es: seq<Entry>, derive: (string, string) -> string,
                         task: string, now: string, out: seq<Entry>)
    requires DistinctFiles(es) && (forall c :: c in cs ==> c in all)
    requires CatalogStep(Batch(Decisions(all, Some(es), derive), task, now), es, cs, out)
    ensures LockedKept(es, out) <==> forall c :: c in cs ==> !BypassesLock(Decider(all, c.testId), es)
  {
    var b := Batch(Decisions(all, Some(es), derive), task, now);
    LockedKeptIff(b, es, cs, out);
    forall c | c in cs
      ensures HitsLocked(b, es, c) <==> BypassesLock(Decider(all, c.testId), es)
    {
      var i :| 0 <= i < |cs| && cs[i] == c;
      assert Wanted(cs[i]);
      HitsLockedIff(all, es, derive, task, now, c);
    }
  }

  /** So one match per criterion is enough. */
  lemma OneMatchKeepsLocks(all: seq<Candidate>, cs: seq<Candidate>, es: seq<Entry>, derive: (string, string) -> string,
                           task: string, now: string, out: seq<Entry>)
    requires DistinctFiles(es) && (forall c :: c in cs ==> c in all)
    requires CatalogStep(Batch(Decisions(all, Some(es), derive), task, now), es, cs, out)
    requires forall c :: c in all ==> |Matches(c, es)| <= 1
    ensures LockedKept(es, out)
  {
    RunKeepsLocksIff(all, cs, es, derive, task, now, out);
  }

  /** With two matches it does happen, whatever they are: if the older one is free
      and the newer one, which the operator pinned, comes second, the pinned
      test is the one that is rewritten. */
  lemma LockIsLost(c: Candidate, older: Entry, newer: Entry)
    requires CandidateAc(c) != "" && Covers(older, CandidateAc(c)) && Covers(newer, CandidateAc(c))
    requires !older.operatorLocked && newer.operatorLocked && newer.testFile != ""
    requires !StringLeq(newer.generatedAt, older.generatedAt)
    ensures BypassesLock(c, [older, newer]) && Decide(c, Some([older, newer])) == Update(newer.testFile)
  {
    var es := [older, newer];
    var covers := (e: Entry) => Covers(e, CandidateAc(c));
    assert es[1..] == [newer] && es[1..][1..] == [] && es[..1] == [older];
    assert Filter(covers, [newer]) == [newer];
    assert Filter(covers, es) == es;
    assert Newest(es) == newer;
  }
}
