/** The tests catalog. */
module Catalog {
  import opened Options
  import opened Text
  import opened TriageDedup

  // Looking a criterion up, deciding what a candidate does to the catalog, and
  // applying the decisions through a file index.

  datatype Entry = Entry(
    testId: string,
    testFile: string,
    framework: string,
    lane: string,
    language: string,
    coversAcs: seq<string>,
    generatedAt: string,
    generatedByTask: string,
    lastVerdict: string,
    browsersTested: seq<string>,
    targetRef: Option<string>,
    operatorLocked: bool,
    generationVersion: int,
    evidenceRun: Option<string>,
    evidenceUrls: seq<(string, seq<string>)>)

  predicate ValidLane(lane: string) {
    lane in ["unit", "browser", "api", "integration", "mutation"]
  }

  predicate ValidLastVerdict(verdict: string) {
    verdict in ["accept", "reject", "flag", "skip"]
  }

  /** `CatalogEntry.__post_init__`. */
  function Checked(e: Entry): Result<Entry> {
    if !ValidLane(e.lane) then Raised("lane")
    else if !ValidLastVerdict(e.lastVerdict) then Raised("last_verdict")
    else Ok(e)
  }

  /** An entry is refused exactly when its lane or its last verdict is none of these. */
  lemma CheckedIff(e: Entry)
    ensures Checked(e).Ok? <==>
      e.lane in {"unit", "browser", "api", "integration", "mutation"} &&
      e.lastVerdict in {"accept", "reject", "flag", "skip"}
    ensures Checked(e).Ok? ==> Checked(e).value == e
  {
  }

  // ---- Looking a criterion up ----

  /** The criterion's id: what stands before the first colon. */
  function BeforeColon(s: string): string {
    if s == "" || s[0] == ':' then "" else [s[0]] + BeforeColon(s[1..])
  }

  function AcId(ac: string): string {
    Strip(BeforeColon(ac))
  }

  predicate Covers(e: Entry, ac: string) {
    ac in e.coversAcs
  }

  predicate CoversId(e: Entry, id: string) {
    exists i :: 0 <= i < |e.coversAcs| && StartsWith(e.coversAcs[i], id)
  }

  function LookupByAc(es: seq<Entry>, ac: string): seq<Entry> {
    var exact := Filter((e: Entry) => Covers(e, ac), es);
    if exact != [] then exact
    else if AcId(ac) != "" then Filter((e: Entry) => CoversId(e, AcId(ac)), es)
    else []
  }

  /** The entry lists the criterion word for word, or nobody does and it lists
      something with its id. */
  ghost predicate Found(es: seq<Entry>, ac: string, e: Entry) {
    Covers(e, ac) ||
    (AcId(ac) != "" && CoversId(e, AcId(ac)) && forall other :: other in es ==> !Covers(other, ac))
  }

  /** What a lookup finds: the entries that list the criterion word for word, and
      only if there are none, those that list something with its id. */
  lemma LookupFinds(es: seq<Entry>, ac: string, e: Entry)
    ensures e in LookupByAc(es, ac) <==> e in es && Found(es, ac, e)
  {
    var exact := (x: Entry) => Covers(x, ac);
    var prefix := (x: Entry) => CoversId(x, AcId(ac));
    FilterMembers(exact, es);
    FilterMembers(prefix, es);
    if Filter(exact, es) != [] {
      assert Filter(exact, es)[0] in Filter(exact, es);
    }
    assert forall x :: x in es && exact(x) ==> x in Filter(exact, es);
  }

  /** The first entry that is found. */
  ghost predicate FirstFound(es: seq<Entry>, ac: string, i: nat) {
    i < |es| && Found(es, ac, es[i]) && forall j :: 0 <= j < i ==> !Found(es, ac, es[j])
  }

  /** What the lookup finds comes in catalog order, the first entry first. */
  lemma FirstMatch(es: seq<Entry>, ac: string, i: nat)
    requires FirstFound(es, ac, i)
    ensures LookupByAc(es, ac) != [] && LookupByAc(es, ac)[0] == es[i]
  {
    var exact := (e: Entry) => Covers(e, ac);
    FilterEmptyIff(exact, es);
    if Covers(es[i], ac) {
      FilterHead(exact, es, i);
    } else {
      var prefix := (e: Entry) => CoversId(e, AcId(ac));
      assert forall j :: 0 <= j < i ==> es[j] in es;
      FilterHead(prefix, es, i);
    }
  }

  lemma {:induction false} SomeFirst(es: seq<Entry>, ac: string, n: nat) returns (i: nat)
    requires n <= |es| && exists j :: 0 <= j < n && Found(es, ac, es[j])
    ensures FirstFound(es, ac, i)
  {
    if exists j :: 0 <= j < n - 1 && Found(es, ac, es[j]) {
      i := SomeFirst(es, ac, n - 1);
    } else {
      i := n - 1;
    }
  }

  // ---- Deciding ----

  datatype Decision = Create(derived: string) | Update(target: string) | SkipLocked

  function FirstAcReason(reasons: seq<string>): string {
    if reasons == [] then ""
    else if StartsWith(Strip(reasons[0]), "AC") then Strip(reasons[0])
    else FirstAcReason(reasons[1..])
  }

  function CandidateAc(c: Candidate): string {
    if c.verdict.rationale == "" then FirstAcReason(c.verdict.reasons) else Strip(c.verdict.rationale)
  }

  function Matches(c: Candidate, es: seq<Entry>): seq<Entry> {
    if CandidateAc(c) == "" then [] else LookupByAc(es, CandidateAc(c))
  }

  /** `max(matches, key=generated_at)`: the first of the newest. */
  function Newest(matches: seq<Entry>): Entry
    requires matches != []
  {
    if |matches| == 1 then matches[0]
    else
      var best := Newest(matches[..|matches| - 1]);
      var last := matches[|matches| - 1];
      if StringLeq(last.generatedAt, best.generatedAt) then best else last
  }

  /** `_decide_catalog_intent`; without a catalog everything is created. */
  function Decide(c: Candidate, catalog: Option<seq<Entry>>): Decision {
    if catalog.None? then Create("")
    else
      var matches := Matches(c, catalog.value);
      if matches == [] then Create("")
      else if matches[0].operatorLocked then SkipLocked
      else Update(Newest(matches).testFile)
  }

  /** The first of the reasons whose text begins with `AC`, if there is one. */
  lemma {:induction false} ReasonIs(reasons: seq<string>, i: nat)
    requires i <= |reasons| && forall j :: 0 <= j < i ==> !StartsWith(Strip(reasons[j]), "AC")
    ensures i == |reasons| ==> FirstAcReason(reasons) == ""
    ensures i < |reasons| && StartsWith(Strip(reasons[i]), "AC") ==> FirstAcReason(reasons) == Strip(reasons[i])
  {
    if i > 0 {
      ReasonIs(reasons[1..], i - 1);
    }
  }

  /** The criterion of a candidate: what its rationale says, without white space
      around it, or else the first reason that begins with `AC`. */
  lemma CriterionIs(c: Candidate, i: nat)
    requires i <= |c.verdict.reasons|
    requires forall j :: 0 <= j < i ==> !StartsWith(Strip(c.verdict.reasons[j]), "AC")
    ensures c.verdict.rationale != "" ==> CandidateAc(c) == Strip(c.verdict.rationale)
    ensures c.verdict.rationale == "" && i < |c.verdict.reasons| && StartsWith(Strip(c.verdict.reasons[i]), "AC") ==>
      CandidateAc(c) == Strip(c.verdict.reasons[i])
    ensures c.verdict.rationale == "" && i == |c.verdict.reasons| ==> CandidateAc(c) == ""
  {
    ReasonIs(c.verdict.reasons, i);
  }

  ghost predicate NothingFound(es: seq<Entry>, ac: string) {
    forall e :: e in es ==> !Found(es, ac, e)
  }

  /** The first entry that is found is locked. */
  ghost predicate FirstIsLocked(es: seq<Entry>, ac: string) {
    exists i: nat :: FirstFound(es, ac, i) && es[i].operatorLocked
  }

  /** A candidate is skipped exactly when the lookup finds something for its
      criterion and the first entry it finds is locked; a test is created exactly
      when there is no catalog, no criterion, or nothing is found for it. */
  lemma DecideMeans(c: Candidate, catalog: Option<seq<Entry>>)
    ensures Decide(c, catalog).SkipLocked? <==>
      catalog.Some? && CandidateAc(c) != "" && FirstIsLocked(catalog.value, CandidateAc(c))
    ensures Decide(c, catalog) == Create("") <==>
      catalog.None? || CandidateAc(c) == "" || NothingFound(catalog.value, CandidateAc(c))
    ensures Decide(c, catalog).Create? ==> Decide(c, catalog).derived == ""
  {
    var ac := CandidateAc(c);
    if catalog.Some? && ac != "" {
      var es := catalog.value;
      if NothingFound(es, ac) {
        NoMatch(es, ac);
        assert forall i :: 0 <= i < |es| ==> es[i] in es;
      } else {
        var e :| e in es && Found(es, ac, e);
        var i := SomeFirst(es, ac, |es|);
        FirstMatch(es, ac, i);
        assert forall j: nat :: FirstFound(es, ac, j) ==> j == i;
      }
    }
  }

  lemma NoMatch(es: seq<Entry>, ac: string)
    requires NothingFound(es, ac)
    ensures LookupByAc(es, ac) == []
  {
    if LookupByAc(es, ac) != [] {
      LookupFinds(es, ac, LookupByAc(es, ac)[0]);
    }
  }

  lemma {:induction false} NewestIsNewest(matches: seq<Entry>)
    requires matches != []
    ensures Newest(matches) in matches
    ensures forall e :: e in matches ==> StringLeq(e.generatedAt, Newest(matches).generatedAt)
  {
    var last := matches[|matches| - 1];
    if |matches| == 1 {
      StringLeqTotal(last.generatedAt, last.generatedAt);
    } else {
      var front := matches[..|matches| - 1];
      NewestIsNewest(front);
      var best := Newest(front);
      StringLeqTotal(last.generatedAt, best.generatedAt);
      forall e | e in matches
        ensures StringLeq(e.generatedAt, Newest(matches).generatedAt)
      {
        if e in front && !StringLeq(last.generatedAt, best.generatedAt) {
          StringLeqTransitive(e.generatedAt, best.generatedAt, last.generatedAt);
        } else if e !in front {
          assert e == last;
          StringLeqTotal(last.generatedAt, last.generatedAt);
        }
      }
    }
  }

  /** An update hits an entry of the catalog that the lookup finds for the
      candidate's criterion, word for word or by the beginning of its id, and it
      hits the newest of them. */
  lemma UpdateHitsNewestMatch(c: Candidate, es: seq<Entry>)
    requires Decide(c, Some(es)).Update?
    ensures var e := Newest(Matches(c, es));
      Decide(c, Some(es)).target == e.testFile && e in es && e in LookupByAc(es, CandidateAc(c)) &&
      forall other :: other in LookupByAc(es, CandidateAc(c)) ==> StringLeq(other.generatedAt, e.generatedAt)
  {
    var matches := Matches(c, es);
    NewestIsNewest(matches);
    LookupFinds(es, CandidateAc(c), Newest(matches));
  }

  // ---- Applying the decisions ----

  function ShortOr(s: string, fallback: string): string {
    if s == "" then fallback else s
  }

  /** What is fixed during one run of the Triager. */
  datatype Batch = Batch(decisions: map<string, Decision>, task: string, now: string) {
    /** Whether `c` updates the entry of `file`. */
    predicate Updates(c: Candidate, file: string) {
      c.testId in decisions && decisions[c.testId] == Update(file) && file != ""
    }

    predicate Creates(c: Candidate) {
      c.testId in decisions && decisions[c.testId].Create?
    }

    function CreatePath(c: Candidate): string
      requires Creates(c)
    {
      ShortOr(decisions[c.testId].derived, c.testFile)
    }

    /** An updated entry. The evidence fields are not carried over. */
    function Refreshed(e: Entry, verdict: string, bump: int): Entry {
      Entry(e.testId, e.testFile, e.framework, e.lane, e.language, e.coversAcs, now, e.generatedByTask, verdict,
            e.browsersTested, e.targetRef, e.operatorLocked, e.generationVersion + bump, None, [])
    }

    function NewEntry(c: Candidate): Entry
      requires Creates(c)
    {
      Entry(c.testId, CreatePath(c), ShortOr(c.verdict.framework, "pytest"), ShortOr(c.verdict.lane, "unit"),
            ShortOr(c.verdict.language, "python"), c.verdict.coversAcs, now, task, c.verdict.verdictLabel,
            [], None, false, 1, None, [])
    }
  }

  /** The position of the last entry for `file`, by looking at all of them. */
  function LastIndex(es: seq<Entry>, file: string): (i: int)
    ensures -1 <= i < |es|
    ensures i >= 0 ==> es[i].testFile == file
  {
    if es == [] then -1
    else if es[|es| - 1].testFile == file then |es| - 1
    else LastIndex(es[..|es| - 1], file)
  }

  /** What one candidate does to the entries, written with a linear scan. */
  function Applied(b: Batch, es: seq<Entry>, c: Candidate): Result<seq<Entry>> {
    if c.testId !in b.decisions then Ok(es)
    else
      match b.decisions[c.testId]
      case SkipLocked => Ok(es)
      case Update(target) =>
        var i := LastIndex(es, target);
        if target == "" || i < 0 then Ok(es)
        else
          (match Checked(b.Refreshed(es[i], c.verdict.verdictLabel, 1))
           case Ok(e) => Ok(es[i := e])
           case Raised(error) => Raised(error))
      case Create(_) =>
        if LastIndex(es, b.CreatePath(c)) >= 0 then Ok(es)
        else
          (match Checked(b.NewEntry(c))
           case Ok(e) => Ok(es + [e])
           case Raised(error) => Raised(error))
  }

  function AppliedAll(b: Batch, es: seq<Entry>, cs: seq<Candidate>): Result<seq<Entry>> {
    if cs == [] then Ok(es)
    else
      match AppliedAll(b, es, cs[..|cs| - 1])
      case Ok(done) => Applied(b, done, cs[|cs| - 1])
      case Raised(error) => Raised(error)
  }

  /** `fileIndex` knows the last position of every file. */
  ghost predicate Indexes(fileIndex: map<string, int>, es: seq<Entry>) {
    forall file :: (file in fileIndex <==> LastIndex(es, file) >= 0) &&
                   (file in fileIndex ==> fileIndex[file] == LastIndex(es, file))
  }

  lemma IndexesAppend(fileIndex: map<string, int>, es: seq<Entry>, e: Entry)
    requires Indexes(fileIndex, es)
    ensures Indexes(fileIndex[e.testFile := |es|], es + [e])
  {
    assert (es + [e])[..|es|] == es;
  }

  lemma {:induction false} UpdateKeepsIndex(es: seq<Entry>, i: nat, e: Entry, file: string)
    requires i < |es| && e.testFile == es[i].testFile
    ensures LastIndex(es[i := e], file) == LastIndex(es, file)
  {
    var front := es[..|es| - 1];
    if i < |front| {
      assert es[i := e][..|es| - 1] == front[i := e];
      UpdateKeepsIndex(front, i, e, file);
    } else {
      assert es[i := e][..|es| - 1] == front;
    }
  }

  method IndexFiles(es: seq<Entry>) returns (fileIndex: map<string, int>)
    ensures Indexes(fileIndex, es)
  {
    fileIndex := map[];
    for i := 0 to |es|
      invariant Indexes(fileIndex, es[..i])
    {
      IndexesAppend(fileIndex, es[..i], es[i]);
      assert es[..i + 1] == es[..i] + [es[i]];
      fileIndex := fileIndex[es[i].testFile := i];
    }
    assert es[..|es|] == es;
  }

  /** The loop body of `_mutate_catalog`: one decision, found through the index. */
  method ApplyDecision(b: Batch, entries: seq<Entry>, fileIndex: map<string, int>, c: Candidate)
    returns (r: Result<seq<Entry>>, index: map<string, int>)
    requires Indexes(fileIndex, entries)
    ensures r == Applied(b, entries, c)
    ensures r.Ok? ==> Indexes(index, r.value)
  {
    index := fileIndex;
    if c.testId !in b.decisions {
      return Ok(entries), index;
    }
    var decision := b.decisions[c.testId];
    if decision.Update? && decision.target != "" && decision.target in fileIndex {
      var i := fileIndex[decision.target];
      var checked := Checked(b.Refreshed(entries[i], c.verdict.verdictLabel, 1));
      if checked.Raised? {
        return Raised(checked.error), index;
      }
      forall file
        ensures LastIndex(entries[i := checked.value], file) == LastIndex(entries, file)
      {
        UpdateKeepsIndex(entries, i, checked.value, file);
      }
      return Ok(entries[i := checked.value]), index;
    }
    if decision.Create? && b.CreatePath(c) !in fileIndex {
      var checked := Checked(b.NewEntry(c));
      if checked.Raised? {
        return Raised(checked.error), index;
      }
      IndexesAppend(fileIndex, entries, checked.value);
      index := fileIndex[b.CreatePath(c) := |entries|];
      return Ok(entries + [checked.value]), index;
    }
    r := Ok(entries);
  }

  /** `_mutate_catalog`: the index finds what a scan of the whole list would. */
  method MutateCatalog(b: Batch, tests: seq<Entry>, candidates: seq<Candidate>) returns (r: Result<seq<Entry>>)
    ensures r == AppliedAll(b, tests, candidates)
  {
    var entries := tests;
    var fileIndex := IndexFiles(entries);
    for k := 0 to |candidates|
      invariant Ok(entries) == AppliedAll(b, tests, candidates[..k])
      invariant Indexes(fileIndex, entries)
    {
      assert candidates[..k + 1][..k] == candidates[..k];
      PrefixRaises(b, tests, candidates, k + 1);
      r, fileIndex := ApplyDecision(b, entries, fileIndex, candidates[k]);
      if r.Raised? {
        return;
      }
      entries := r.value;
    }
    assert candidates[..|candidates|] == candidates;
    r := Ok(entries);
  }

  lemma {:induction false} PrefixRaises(b: Batch, es: seq<Entry>, cs: seq<Candidate>, k: nat)
    requires k <= |cs|
    ensures AppliedAll(b, es, cs[..k]).Raised? ==> AppliedAll(b, es, cs) == AppliedAll(b, es, cs[..k])
  {
    if k < |cs| {
      assert cs[..|cs| - 1][..k] == cs[..k];
      PrefixRaises(b, es, cs[..|cs| - 1], k);
    } else {
      assert cs[..k] == cs;
    }
  }

  // ---- The closed form ----

  /** How many of the candidates update the entry of `file`. */
  function UpdateCount(b: Batch, cs: seq<Candidate>, file: string): nat {
    if cs == [] then 0
    else UpdateCount(b, cs[..|cs| - 1], file) + (if b.Updates(cs[|cs| - 1], file) then 1 else 0)
  }

  /** The verdict of the last of them. */
  function LastVerdict(b: Batch, cs: seq<Candidate>, file: string): string {
    if cs == [] then ""
    else if b.Updates(cs[|cs| - 1], file) then cs[|cs| - 1].verdict.verdictLabel
    else LastVerdict(b, cs[..|cs| - 1], file)
  }

  /** What becomes of the entry at position `i`. */
  function Fate(b: Batch, es: seq<Entry>, cs: seq<Candidate>, i: nat): Entry
    requires i < |es|
  {
    var e := es[i];
    var n := UpdateCount(b, cs, e.testFile);
    if n == 0 || LastIndex(es, e.testFile) != i then e else b.Refreshed(e, LastVerdict(b, cs, e.testFile), n)
  }

  function Fates(b: Batch, es: seq<Entry>, cs: seq<Candidate>): (fs: seq<Entry>)
    ensures |fs| == |es| && forall i :: 0 <= i < |es| ==> fs[i] == Fate(b, es, cs, i)
  {
    seq(|es|, i requires 0 <= i < |es| => Fate(b, es, cs, i))
  }

  /** The entries that are new: one for the first candidate that creates each
      file the catalog does not have. */
  function Created(b: Batch, es: seq<Entry>, cs: seq<Candidate>): seq<Entry> {
    if cs == [] then []
    else
      var made := Created(b, es, cs[..|cs| - 1]);
      var c := cs[|cs| - 1];
      if b.Creates(c) && LastIndex(es, b.CreatePath(c)) < 0 && LastIndex(made, b.CreatePath(c)) < 0
      then made + [b.NewEntry(c)]
      else made
  }

  /** Every update names a file the catalog has. */
  ghost predicate TargetsIn(b: Batch, es: seq<Entry>) {
    forall id :: id in b.decisions && b.decisions[id].Update? ==> LastIndex(es, b.decisions[id].target) >= 0
  }

  ghost predicate AllChecked(es: seq<Entry>) {
    forall i :: 0 <= i < |es| ==> Checked(es[i]).Ok?
  }

  lemma {:induction false} LastIndexConcat(a: seq<Entry>, b: seq<Entry>, file: string)
    ensures LastIndex(a + b, file) == if LastIndex(b, file) >= 0 then |a| + LastIndex(b, file) else LastIndex(a, file)
  {
    if b == [] {
      assert a + b == a;
    } else {
      assert (a + b)[..|a + b| - 1] == a + b[..|b| - 1];
      LastIndexConcat(a, b[..|b| - 1], file);
    }
  }

  lemma {:induction false} SameFilesSameIndex(a: seq<Entry>, b: seq<Entry>, file: string)
    requires |a| == |b| && forall i :: 0 <= i < |a| ==> a[i].testFile == b[i].testFile
    ensures LastIndex(a, file) == LastIndex(b, file)
  {
    if a != [] {
      SameFilesSameIndex(a[..|a| - 1], b[..|b| - 1], file);
    }
  }

  lemma FatesIndex(b: Batch, es: seq<Entry>, cs: seq<Candidate>, file: string)
    ensures LastIndex(Fates(b, es, cs), file) == LastIndex(es, file)
  {
    SameFilesSameIndex(Fates(b, es, cs), es, file);
  }

  /** None of the files the catalog has is created. */
  lemma {:induction false} CreatedAreNew(b: Batch, es: seq<Entry>, cs: seq<Candidate>, file: string)
    requires LastIndex(es, file) >= 0
    ensures LastIndex(Created(b, es, cs), file) < 0
  {
    if cs != [] {
      var front, c := cs[..|cs| - 1], cs[|cs| - 1];
      CreatedAreNew(b, es, front, file);
      if b.Creates(c) {
        var made := Created(b, es, front);
        assert (made + [b.NewEntry(c)])[..|made|] == made;
      }
    }
  }

  lemma UpdatedFates(b: Batch, es: seq<Entry>, cs: seq<Candidate>, c: Candidate, file: string)
    requires b.Updates(c, file) && LastIndex(es, file) >= 0
    ensures var i := LastIndex(es, file);
      Fates(b, es, cs + [c]) == Fates(b, es, cs)[i := b.Refreshed(Fates(b, es, cs)[i], c.verdict.verdictLabel, 1)]
  {
    assert (cs + [c])[..|cs|] == cs;
  }

  lemma UnchangedFates(b: Batch, es: seq<Entry>, cs: seq<Candidate>, c: Candidate)
    requires c.testId in b.decisions && b.decisions[c.testId].Update? ==> b.decisions[c.testId].target == ""
    ensures Fates(b, es, cs + [c]) == Fates(b, es, cs)
  {
    assert (cs + [c])[..|cs|] == cs;
  }

  function ClosedForm(b: Batch, es: seq<Entry>, cs: seq<Candidate>): Result<seq<Entry>> {
    if forall e :: e in Created(b, es, cs) ==> ValidLane(e.lane) then Ok(Fates(b, es, cs) + Created(b, es, cs))
    else Raised("lane")
  }

  /** An update of the old part of a list leaves the new part alone. */
  lemma AppliedUpdate(b: Batch, was: seq<Entry>, made: seq<Entry>, c: Candidate, file: string)
    requires b.Updates(c, file) && LastIndex(was, file) >= 0 && LastIndex(made, file) < 0
    requires ValidLane(was[LastIndex(was, file)].lane) && ValidLastVerdict(c.verdict.verdictLabel)
    ensures var i := LastIndex(was, file);
      Applied(b, was + made, c) == Ok(was[i := b.Refreshed(was[i], c.verdict.verdictLabel, 1)] + made)
  {
    var i := LastIndex(was, file);
    LastIndexConcat(was, made, file);
    var e := b.Refreshed(was[i], c.verdict.verdictLabel, 1);
    assert (was + made)[i := e] == was[i := e] + made;
  }

  lemma ClosedUpdate(b: Batch, es: seq<Entry>, cs: seq<Candidate>, c: Candidate, file: string)
    requires AllChecked(es) && ValidLastVerdict(c.verdict.verdictLabel)
    requires b.Updates(c, file) && LastIndex(es, file) >= 0
    ensures Applied(b, Fates(b, es, cs) + Created(b, es, cs), c) == Ok(Fates(b, es, cs + [c]) + Created(b, es, cs))
  {
    CreatedAreNew(b, es, cs, file);
    FatesIndex(b, es, cs, file);
    FateLane(b, es, cs, LastIndex(es, file));
    AppliedUpdate(b, Fates(b, es, cs), Created(b, es, cs), c, file);
    UpdatedFates(b, es, cs, c, file);
  }

  lemma FateLane(b: Batch, es: seq<Entry>, cs: seq<Candidate>, i: nat)
    requires AllChecked(es) && i < |es|
    ensures ValidLane(Fates(b, es, cs)[i].lane)
  {
    assert Checked(es[i]).Ok?;
  }

  lemma ClosedCreate(b: Batch, es: seq<Entry>, cs: seq<Candidate>, c: Candidate)
    requires b.Creates(c) && ValidLastVerdict(c.verdict.verdictLabel)
    ensures var fates, made := Fates(b, es, cs), Created(b, es, cs);
      Applied(b, fates + made, c) ==
      if Created(b, es, cs + [c]) == made then Ok(fates + made)
      else if ValidLane(b.NewEntry(c).lane) then Ok(fates + (made + [b.NewEntry(c)]))
      else Raised("lane")
    ensures Created(b, es, cs + [c]) == Created(b, es, cs) ||
            Created(b, es, cs + [c]) == Created(b, es, cs) + [b.NewEntry(c)]
  {
    assert (cs + [c])[..|cs|] == cs;
    var fates, made := Fates(b, es, cs), Created(b, es, cs);
    var path := b.CreatePath(c);
    FatesIndex(b, es, cs, path);
    LastIndexConcat(fates, made, path);
    assert fates + made + [b.NewEntry(c)] == fates + (made + [b.NewEntry(c)]);
  }

  lemma SameCreated(b: Batch, es: seq<Entry>, cs: seq<Candidate>, c: Candidate)
    requires !b.Creates(c)
    ensures Created(b, es, cs + [c]) == Created(b, es, cs)
  {
    assert (cs + [c])[..|cs|] == cs;
  }

  lemma ClosedStep(b: Batch, es: seq<Entry>, cs: seq<Candidate>, c: Candidate)
    requires AllChecked(es) && TargetsIn(b, es) && ValidLastVerdict(c.verdict.verdictLabel)
    requires ClosedForm(b, es, cs).Ok?
    ensures Applied(b, Fates(b, es, cs) + Created(b, es, cs), c) == ClosedForm(b, es, cs + [c])
  {
    if b.Creates(c) {
      ClosedCreate(b, es, cs, c);
      UnchangedFates(b, es, cs, c);
    } else {
      SameCreated(b, es, cs, c);
      if c.testId in b.decisions && b.decisions[c.testId].Update? && b.decisions[c.testId].target != "" {
        ClosedUpdate(b, es, cs, c, b.decisions[c.testId].target);
      } else {
        UnchangedFates(b, es, cs, c);
      }
    }
  }

  lemma CreatedGrows(b: Batch, es: seq<Entry>, cs: seq<Candidate>, c: Candidate)
    requires ClosedForm(b, es, cs).Raised?
    ensures ClosedForm(b, es, cs + [c]) == ClosedForm(b, es, cs)
  {
    assert (cs + [c])[..|cs|] == cs;
    var e :| e in Created(b, es, cs) && !ValidLane(e.lane);
    assert e in Created(b, es, cs + [c]);
  }

  /** The run as a whole: updates and creations do not interfere. Old entries
      keep their places, each meets its fate, and the new ones follow; only a
      created entry with a lane that does not exist can stop the run. */
  lemma {:induction false} MutationClosedForm(b: Batch, es: seq<Entry>, cs: seq<Candidate>)
    requires AllChecked(es) && TargetsIn(b, es)
    requires forall i :: 0 <= i < |cs| ==> ValidLastVerdict(cs[i].verdict.verdictLabel)
    ensures AppliedAll(b, es, cs) == ClosedForm(b, es, cs)
  {
    if cs == [] {
      assert Fates(b, es, cs) + Created(b, es, cs) == es;
    } else {
      var front, c := cs[..|cs| - 1], cs[|cs| - 1];
      assert cs == front + [c];
      MutationClosedForm(b, es, front);
      if ClosedForm(b, es, front).Ok? {
        ClosedStep(b, es, front, c);
      } else {
        CreatedGrows(b, es, front, c);
      }
    }
  }
}
