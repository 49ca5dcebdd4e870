/** `run_triager`: buckets, delivery and the counts that are reported. */
module Triager {
  import opened Options
  import opened NormalForm
  import opened TriageDedup
  import opened TriageRank
  import opened Catalog
  import opened CatalogRun
  import opened Verdicts

  // ---- Delivery ----

  /** The `git_writer` record of a run. */
  datatype GitSummary =
    | Wrote(ok: bool, error: Option<string>)
    | NotTried(reason: string)

  function FirstChars(s: string, n: nat): string {
    if |s| <= n then s else s[..n]
  }

  function TextOr(s: Option<string>, fallback: string): string {
    if s.None? || s.value == "" then fallback else s.value
  }

  /** `_delivery_error` */
  function DeliveryError(g: GitSummary): Option<string> {
    match g
    case Wrote(ok, error) => if ok then None else Some(FirstChars(TextOr(error, "git write failed"), 300))
    case NotTried(reason) =>
      Some(FirstChars("git write skipped: " + ShortOr(reason, "unknown reason"), 300))
  }

  /** The counts are decided by whether the error is truthy, so it matters that
      an error is never the empty string. */
  lemma DeliveryErrorSpeaks(g: GitSummary)
    ensures DeliveryError(g) == None <==> g.Wrote? && g.ok
    ensures DeliveryError(g).Some? ==> 0 < |DeliveryError(g).value| <= 300
  {
  }

  /** The files offered to git: sources that could be read, in delivery order. */
  function Readable(cs: seq<Candidate>): seq<(string, string)> {
    if cs == [] then []
    else (if cs[0].source != "" then [(cs[0].testFile, cs[0].source)] else []) + Readable(cs[1..])
  }

  /** Step 4; `attempt` is what the git writer would report if it were called. */
  function GitStep(committed: seq<Candidate>, flagged: seq<Candidate>, branch: string,
                   attempt: GitSummary): GitSummary {
    if committed == [] && flagged == [] then NotTried("no side-effect path")
    else if branch != "" && Readable(committed + flagged) != [] then attempt
    else NotTried(if branch == "" then "no branch in source.json" else "no readable test sources")
  }

  // ---- The report and the status record ----

  datatype Report = Report(
    committed: seq<Candidate>,
    flagged: seq<Candidate>,
    rejected: seq<Candidate>,
    skipped: seq<Candidate>,
    collisions: seq<Collision>,
    dedupInputCount: nat,
    deliveryError: Option<string>)
  {
    function AcceptedCount(): nat {
      |committed|
    }

    function CommittedCount(): nat {
      if deliveryError.Some? && deliveryError.value != "" then 0 else |committed|
    }
  }

  datatype Record = Record(
    triaged: bool,
    acceptedCount: nat,
    committedCount: nat,
    rejectedCount: nat,
    flaggedCount: nat,
    collisionCount: nat)

  datatype Outcome =
    | Failed
    | Finished(report: Report, record: Record, catalog: Option<seq<Entry>>)

  /** Everything `run_triager` is given or calls. */
  datatype Inputs = Inputs(
    items: seq<Item>,
    read: string -> string,
    catalog: Option<seq<Entry>>,
    derive: (string, string) -> string,
    branch: string,
    attempt: GitSummary,
    task: string,
    now: string)
  {
    function Candidates(): seq<Candidate> {
      CandidatesOf(items, read)
    }

    function Orders(): Batch {
      Batch(Decisions(Candidates(), catalog, derive), task, now)
    }
  }

  // ---- Buckets ----

  /** The operator locked the test this candidate would replace. */
  predicate IsSkipped(decisions: map<string, Decision>, c: Candidate) {
    c.testId in decisions && decisions[c.testId].SkipLocked?
  }

  function Keepers(decisions: map<string, Decision>, cs: seq<Candidate>): seq<Candidate> {
    Filter((c: Candidate) => Wanted(c) && !IsSkipped(decisions, c), cs)
  }

  function Skipped(decisions: map<string, Decision>, cs: seq<Candidate>): seq<Candidate> {
    Filter((c: Candidate) => Wanted(c) && IsSkipped(decisions, c), cs)
  }

  function Rejects(cs: seq<Candidate>): seq<Candidate> {
    Filter((c: Candidate) => c.verdict.verdictLabel == "reject", cs)
  }

  function ReportOf(inp: Inputs): Report {
    var cs := inp.Candidates();
    var decisions := inp.Orders().decisions;
    var keepers := Keepers(decisions, cs);
    var ranked := Rank(Kept(keepers));
    var committed, flagged := Labelled("accept", ranked), Labelled("flag", ranked);
    var git := GitStep(committed, flagged, inp.branch, inp.attempt);
    Report(committed, flagged, Rejects(cs), Skipped(decisions, cs),
           ByteCollisions(keepers) + NormalCollisions(keepers), |keepers|,
           if committed == [] then None else DeliveryError(git))
  }

  function EmptyReport(): Report {
    Report([], [], [], [], [], 0, None)
  }

  /** What the catalog update is given: everything that was decided on. */
  function CatalogAfter(inp: Inputs): Option<Result<seq<Entry>>> {
    var decisions, cs := inp.Orders().decisions, inp.Candidates();
    if inp.catalog.None? then None
    else Some(AppliedAll(inp.Orders(), inp.catalog.value, Keepers(decisions, cs) + Skipped(decisions, cs)))
  }

  /** The status record read off the report alone. */
  function RecordOf(r: Report): Record {
    Record(r.AcceptedCount() > 0 ||
        |r.flagged| > 0, r.AcceptedCount(), r.CommittedCount(), |r.rejected|, |r.flagged|, |r.collisions|)
  }

  predicate AllObjects(items: seq<Item>) {
    forall i :: 0 <= i < |items| ==> items[i].Item?
  }

  function Concluded(report: Report, after: Option<Result<seq<Entry>>>): Outcome {
    match after
    case None => Finished(report, RecordOf(report), None)
    case Some(Ok(entries)) => Finished(report, RecordOf(report), Some(entries))
    case Some(Raised(_)) => Failed
  }

  function Triage(inp: Inputs): Outcome {
    if !AllObjects(inp.items) then Failed
    else if inp.Candidates() == [] then Concluded(EmptyReport(), None)
    else Concluded(ReportOf(inp), CatalogAfter(inp))
  }

  /** Steps 3 to 5: bucket, deduplicate, rank, deliver, report. */
  method BuildReport(inp: Inputs, decisions: map<string, Decision>, cs: seq<Candidate>) returns (report: Report)
    requires cs == inp.Candidates() && decisions == inp.Orders().decisions
    ensures report == ReportOf(inp)
  {
    var keepers := Keepers(decisions, cs);
    var kept, collisions := DedupCandidates(keepers);
    var ranked := Rank(kept);
    var committed, flagged := Labelled("accept", ranked), Labelled("flag", ranked);
    var git := GitStep(committed, flagged, inp.branch, inp.attempt);
    var deliveryError := None;
    if committed != [] {
      deliveryError := DeliveryError(git);
    }
    report := Report(committed, flagged, Rejects(cs), Skipped(decisions, cs), collisions, |keepers|, deliveryError);
  }

  /** `run_triager`, from the parsed verdicts to the last status write. The
      record takes its counts from the buckets, not from the report. */
  method RunTriager(inp: Inputs) returns (o: Outcome)
    ensures o == Triage(inp)
  {
    var collected := CollectCandidates(inp.items, inp.read);
    if collected.Raised? {
      return Failed;
    }
    var cs := collected.value;
    var decisions := DecideAll(cs, inp.catalog, inp.derive);
    if cs == [] {
      return Finished(EmptyReport(), Record(false, 0, 0, 0, 0, 0), None);
    }
    var report := BuildReport(inp, decisions, cs);
    var catalog := None;
    if inp.catalog.Some? {
      var keepers, skipped := Keepers(decisions, cs), Skipped(decisions, cs);
      var updated := MutateCatalog(Batch(decisions, inp.task, inp.now), inp.catalog.value, keepers + skipped);
      if updated.Raised? {
        return Failed;
      }
      catalog := Some(updated.value);
    }
    var acceptedCount := |report.committed|;
    var committedCount := if report.deliveryError.Some? && report.deliveryError.value != "" then 0 else acceptedCount;
    var triaged := acceptedCount > 0 || |report.flagged| > 0;
    var record := Record(triaged, acceptedCount, committedCount, |report.rejected|, |report.flagged|,
        |report.collisions|);
    o := Finished(report, record, catalog);
  }

  // ---- Who is skipped ----

  /** The candidate that decides for the id of `c` has a criterion, and the first
      entry of the catalog that is found for it is locked. */
  ghost predicate LockedOut(inp: Inputs, c: Candidate) {
    HasDecider(inp.Candidates(), c.testId) && inp.catalog.Some? &&
    var ac := CandidateAc(Decider(inp.Candidates(), c.testId));
    ac != "" && FirstIsLocked(inp.catalog.value, ac)
  }

  lemma SkippedIsLockedOut(inp: Inputs, c: Candidate)
    ensures IsSkipped(inp.Orders().decisions, c) <==> LockedOut(inp, c)
  {
    DecisionIsDeciders(inp.Candidates(), inp.catalog, inp.derive, c.testId);
    if HasDecider(inp.Candidates(), c.testId) {
      DecideMeans(Decider(inp.Candidates(), c.testId), inp.catalog);
    }
  }

  /** Of the accepted and flagged candidates exactly those that are locked out are
      reported as skipped, and exactly the others are kept for delivery. */
  lemma SkippedIff(inp: Inputs, c: Candidate)
    ensures c in ReportOf(inp).skipped <==> c in inp.Candidates() && Wanted(c) && LockedOut(inp, c)
    ensures c in KeepersOf(inp) <==> c in inp.Candidates() && Wanted(c) && !LockedOut(inp, c)
  {
    var decisions, cs := inp.Orders().decisions, inp.Candidates();
    SkippedIsLockedOut(inp, c);
    FilterMembers((x: Candidate) => Wanted(x) && IsSkipped(decisions, x), cs);
    FilterMembers((x: Candidate) => Wanted(x) && !IsSkipped(decisions, x), cs);
  }

  /** A run skips nothing when the catalog has no locked entry. */
  lemma NothingLockedNothingSkipped(inp: Inputs)
    requires inp.catalog.Some? ==> forall i :: 0 <= i < |inp.catalog.value| ==> !inp.catalog.value[i].operatorLocked
    ensures ReportOf(inp).skipped == []
  {
    var decisions := inp.Orders().decisions;
    FilterEmptyIff((c: Candidate) => Wanted(c) && IsSkipped(decisions, c), inp.Candidates());
    forall c | c in inp.Candidates()
      ensures !IsSkipped(decisions, c)
    {
      SkippedIsLockedOut(inp, c);
    }
  }

  /** The candidate that decides has no criterion, or nothing is found for it. */
  ghost predicate NothingToUpdate(inp: Inputs, d: Candidate) {
    inp.catalog.None? || CandidateAc(d) == "" || NothingFound(inp.catalog.value, CandidateAc(d))
  }

  /** A run creates a test exactly when there is nothing to update; its file is the
      one derived from the id and the framework of the candidate that decides. */
  lemma RunCreatesIff(inp: Inputs, c: Candidate, path: string)
    requires HasDecider(inp.Candidates(), c.testId)
    ensures var d := Decider(inp.Candidates(), c.testId);
      var framework := if d.verdict.framework == "" then "pytest" else d.verdict.framework;
      var derived := inp.derive(c.testId, framework);
      CreatesAt(inp.Orders(), c, path) <==>
      NothingToUpdate(inp, d) && path == if derived == "" then c.testFile else derived
  {
    DecisionIsDeciders(inp.Candidates(), inp.catalog, inp.derive, c.testId);
    DecideMeans(Decider(inp.Candidates(), c.testId), inp.catalog);
  }

  // ---- Conservation ----

  /** Two disjoint selections are one selection. */
  lemma {:induction false} SelectEither(p: Candidate -> bool, q: Candidate -> bool, either: Candidate -> bool,
                                        cs: seq<Candidate>)
    requires forall i :: 0 <= i < |cs| ==> !(p(cs[i]) && q(cs[i])) && (either(cs[i]) <==> p(cs[i]) || q(cs[i]))
    ensures multiset(Filter(either, cs)) == multiset(Filter(p, cs)) + multiset(Filter(q, cs))
  {
    if cs != [] {
      SelectEither(p, q, either, cs[1..]);
    }
  }

  lemma {:induction false} SelectAllIff(keep: Candidate -> bool, cs: seq<Candidate>)
    ensures Filter(keep, cs) == cs <==> forall i :: 0 <= i < |cs| ==> keep(cs[i])
    ensures |Filter(keep, cs)| <= |cs|
    ensures |Filter(keep, cs)| == |cs| ==> Filter(keep, cs) == cs
  {
    if cs != [] {
      SelectAllIff(keep, cs[1..]);
      assert cs == [cs[0]] + cs[1..];
    }
  }

  lemma BucketsCoverLabelled(decisions: map<string, Decision>, cs: seq<Candidate>)
    ensures multiset(Filter(KnownLabel, cs)) ==
            multiset(Rejects(cs)) + multiset(Skipped(decisions, cs)) + multiset(Keepers(decisions, cs))
  {
    var keep := (c: Candidate) => Wanted(c) && !IsSkipped(decisions, c);
    var skip := (c: Candidate) => Wanted(c) && IsSkipped(decisions, c);
    var reject := (c: Candidate) => c.verdict.verdictLabel == "reject";
    SelectEither(skip, keep, Wanted, cs);
    SelectEither(reject, Wanted, KnownLabel, cs);
  }

  lemma KeptAreIn(cs: seq<Candidate>)
    ensures forall c :: c in Kept(cs) ==> c in cs
  {
    TwoPassesAreOne(cs);
    FirstsAreIn(NormalKey(), cs);
  }

  /** What survives is delivered, in rank order and in two parts. */
  lemma KeepersAreDelivered(decisions: map<string, Decision>, cs: seq<Candidate>)
    ensures var ranked := Rank(Kept(Keepers(decisions, cs)));
      Labelled("accept", ranked) + Labelled("flag", ranked) == ranked
  {
    var keep := (c: Candidate) => Wanted(c) && !IsSkipped(decisions, c);
    var keepers := Keepers(decisions, cs);
    FilterMembers(keep, cs);
    KeptAreIn(keepers);
    forall c | c in Kept(keepers)
      ensures Wanted(c)
    {
      assert c in keepers;
      assert keep(c);
    }
    BucketsAreTheRanking(Kept(keepers));
  }

  lemma KeepersAreConserved(decisions: map<string, Decision>, cs: seq<Candidate>)
    ensures var keepers := Keepers(decisions, cs); var ranked := Rank(Kept(keepers));
      multiset(keepers) == multiset(Labelled("accept", ranked)) + multiset(Labelled("flag", ranked)) +
                           multiset(Dropped(ByteCollisions(keepers) + NormalCollisions(keepers)))
  {
    var keepers := Keepers(decisions, cs);
    DedupConserves(keepers);
    SortedPermutation(RankKey, Kept(keepers));
    KeepersAreDelivered(decisions, cs);
    var ranked := Rank(Kept(keepers));
    assert multiset(ranked) == multiset(Labelled("accept", ranked) + Labelled("flag", ranked));
  }

  /** All the candidates of a report, wherever it puts them. */
  function Accounted(r: Report): multiset<Candidate> {
    multiset(r.rejected) + multiset(r.skipped) + multiset(r.committed) + multiset(r.flagged) +
        multiset(Dropped(r.collisions))
  }

  /** What a run accounts for is exactly the candidates with a label it knows. */
  lemma AccountedIsLabelled(inp: Inputs)
    ensures Accounted(ReportOf(inp)) == multiset(Filter(KnownLabel, inp.Candidates()))
  {
    var cs, decisions := inp.Candidates(), inp.Orders().decisions;
    BucketsCoverLabelled(decisions, cs);
    KeepersAreConserved(decisions, cs);
  }

  /** A selection loses nothing exactly when it selects everything; so a run
      accounts for every candidate exactly when every label is known. */
  lemma SelectsAll(keep: Candidate -> bool, cs: seq<Candidate>)
    ensures multiset(Filter(keep, cs)) == multiset(cs) <==> Filter(keep, cs) == cs
    ensures Filter(keep, cs) == cs <==> forall c :: c in cs ==> keep(c)
  {
    SelectAllIff(keep, cs);
    assert |multiset(Filter(keep, cs))| == |Filter(keep, cs)| && |multiset(cs)| == |cs|;
    assert (forall c :: c in cs ==> keep(c)) <==> forall i :: 0 <= i < |cs| ==> keep(cs[i]);
  }

  /** So a run over a file the Evaluator validated accounts for every candidate. */
  lemma ValidatedRunConserves(inp: Inputs)
    requires Validated(inp.items)
    ensures Accounted(ReportOf(inp)) == multiset(inp.Candidates())
  {
    ValidatedLabels(inp.items, inp.read);
    SelectsAll(KnownLabel, inp.Candidates());
    AccountedIsLabelled(inp);
  }

  // ---- What is delivered ----

  /** The candidates left after deduplication. */
  function Survivors(inp: Inputs): seq<Candidate> {
    Kept(Keepers(inp.Orders().decisions, inp.Candidates()))
  }

  /** Every wanted candidate that is not locked out reaches a survivor
      with the same normal form. */
  lemma WantedIsDelivered(inp: Inputs, c: Candidate) returns (d: Candidate)
    requires c in inp.Candidates() && Wanted(c) && !LockedOut(inp, c)
    ensures d in Survivors(inp) && Normalise(d.source) == Normalise(c.source)
  {
    var cs, decisions := inp.Candidates(), inp.Orders().decisions;
    var keepers := Keepers(decisions, cs);
    FilterMembers((x: Candidate) => Wanted(x) && !IsSkipped(decisions, x), cs);
    SkippedIsLockedOut(inp, c);
    assert c in keepers;
    var mid;
    mid, d := ReachesSurvivor(keepers, c);
  }

  /** What is committed or flagged is exactly what survives. */
  lemma DeliveredIff(inp: Inputs, d: Candidate)
    ensures d in ReportOf(inp).committed || d in ReportOf(inp).flagged <==> d in Survivors(inp)
  {
    var decisions, cs := inp.Orders().decisions, inp.Candidates();
    var kept := Kept(Keepers(decisions, cs));
    SortedPermutation(RankKey, kept);
    KeepersAreDelivered(decisions, cs);
    assert d in kept <==> d in multiset(kept);
    assert d in Rank(kept) <==> d in multiset(Rank(kept));
    var r := ReportOf(inp);
    assert d in r.committed + r.flagged <==> d in r.committed || d in r.flagged;
  }

  /** Nothing rejected or locked out survives. */
  lemma SurvivorsAreWanted(inp: Inputs, d: Candidate)
    requires d in Survivors(inp)
    ensures d in inp.Candidates() && Wanted(d) && !LockedOut(inp, d)
  {
    SkippedIsLockedOut(inp, d);
    var decisions, cs := inp.Orders().decisions, inp.Candidates();
    KeptAreIn(Keepers(decisions, cs));
    FilterMembers((x: Candidate) => Wanted(x) && !IsSkipped(decisions, x), cs);
  }

  /** What deduplication is given, and the part of it with one normal form. */
  function KeepersOf(inp: Inputs): seq<Candidate> {
    Keepers(inp.Orders().decisions, inp.Candidates())
  }

  function KeepersWith(inp: Inputs, form: string): seq<Candidate> {
    Group(NormalKey(), form, KeepersOf(inp))
  }

  /** The run commits some test with this normal form. */
  ghost predicate CommitsForm(inp: Inputs, form: string) {
    exists d :: d in ReportOf(inp).committed && Normalise(d.source) == form
  }

  lemma CommittedIff(inp: Inputs, d: Candidate)
    ensures d in ReportOf(inp).committed <==>
      d.verdict.verdictLabel == "accept" && d in FirstOfEach(NormalKey(), KeepersOf(inp))
  {
    var kept := Kept(KeepersOf(inp));
    TwoPassesAreOne(KeepersOf(inp));
    SortedPermutation(RankKey, kept);
    assert d in kept <==> d in multiset(kept);
    assert d in Rank(kept) <==> d in multiset(Rank(kept));
    LabelledIn("accept", Rank(kept));
  }

  /** A normal form is committed exactly when the first candidate to keep that has
      it was accepted: no label of a later copy counts. */
  lemma CommittedFormIff(inp: Inputs, form: string)
    ensures CommitsForm(inp, form) <==>
      KeepersWith(inp, form) != [] && KeepersWith(inp, form)[0].verdict.verdictLabel == "accept"
  {
    var g := KeepersWith(inp, form);
    if CommitsForm(inp, form) {
      var d :| d in ReportOf(inp).committed && Normalise(d.source) == form;
      CommittedIff(inp, d);
      FirstsAreHeads(NormalKey(), KeepersOf(inp), d);
    }
    if g != [] {
      GroupMembers(NormalKey(), form, KeepersOf(inp));
      assert g[0] in g;
      FirstsAreHeads(NormalKey(), KeepersOf(inp), g[0]);
      CommittedIff(inp, g[0]);
    }
  }

  /** So a flagged test keeps every later accepted copy of itself from being
      committed. */
  lemma FlaggedTwinWins(inp: Inputs, a: Candidate)
    ensures var g := KeepersWith(inp, Normalise(a.source));
      a in g && g[0].verdict.verdictLabel == "flag" ==>
        !CommitsForm(inp, Normalise(a.source)) && a !in ReportOf(inp).committed
  {
    CommittedFormIff(inp, Normalise(a.source));
  }

  /** Two elements, the first flagged and the second accepted, with files of one
      normal form. */
  predicate TwinInputs(inp: Inputs) {
    |inp.items| == 2 && inp.catalog.None? &&
    (forall i :: 0 <= i < 2 ==> Usable(inp.items[i]) && inp.items[i].verdict.Label?) &&
    inp.items[0].verdict.word == "flag" && inp.items[1].verdict.word == "accept" &&
    Normalise(inp.read(inp.items[0].testFile.value)) == Normalise(inp.read(inp.items[1].testFile.value))
  }

  lemma CandidatesSnoc(front: seq<Item>, item: Item, read: string -> string)
    requires Usable(item)
    ensures CandidatesOf(front + [item], read) == CandidatesOf(front, read) + [CandidateOf(item, read)]
  {
    assert (front + [item])[..|front|] == front;
  }

  lemma TwinCandidates(inp: Inputs)
    requires TwinInputs(inp)
    ensures inp.Candidates() == [CandidateOf(inp.items[0], inp.read), CandidateOf(inp.items[1], inp.read)]
  {
    var f, a := inp.items[0], inp.items[1];
    CandidatesSnoc([], f, inp.read);
    CandidatesSnoc([f], a, inp.read);
    assert [] + [f] == [f] && [f] + [a] == inp.items;
  }

  lemma SelectBoth(keep: Candidate -> bool, f: Candidate, a: Candidate)
    requires keep(f) && keep(a)
    ensures Filter(keep, [f, a]) == [f, a]
  {
    assert [f, a][1..] == [a] && [a][1..] == [];
    assert Filter(keep, [a]) == [a] + Filter(keep, []);
  }

  lemma GroupBoth(key: Candidate -> string, k: string, f: Candidate, a: Candidate)
    requires key(f) == key(a) == k
    ensures Group(key, k, [f, a]) == [f, a]
  {
    assert [f, a][..1] == [f] && [f][..0] == [];
    assert Group(key, k, [f]) == Group(key, k, []) + [f];
  }

  /** When every candidate to keep has one normal form, nothing else is committed. */
  lemma OnlyForm(inp: Inputs, form: string)
    requires forall c :: c in KeepersOf(inp) ==> Normalise(c.source) == form
    ensures !CommitsForm(inp, form) ==> ReportOf(inp).committed == []
  {
    var committed := ReportOf(inp).committed;
    if committed != [] {
      var d := committed[0];
      assert d in committed;
      CommittedIff(inp, d);
      FirstsAreIn(NormalKey(), KeepersOf(inp));
    }
  }

  lemma TwinKeepers(inp: Inputs)
    requires TwinInputs(inp)
    ensures KeepersOf(inp) == inp.Candidates() && |inp.Candidates()| == 2
  {
    TwinCandidates(inp);
    var f, a := inp.Candidates()[0], inp.Candidates()[1];
    var decisions := inp.Orders().decisions;
    SkippedIsLockedOut(inp, f);
    SkippedIsLockedOut(inp, a);
    SelectBoth((c: Candidate) => Wanted(c) && !IsSkipped(decisions, c), f, a);
  }

  lemma TwinGroup(inp: Inputs, f: Candidate, a: Candidate)
    requires KeepersOf(inp) == [f, a] && Normalise(f.source) == Normalise(a.source)
    requires f.verdict.verdictLabel == "flag"
    ensures ReportOf(inp).committed == []
  {
    var form := Normalise(a.source);
    GroupBoth(NormalKey(), form, f, a);
    CommittedFormIff(inp, form);
    OnlyForm(inp, form);
  }

  /** Such a run finishes and commits nothing, although the Evaluator accepted one
      of the tests; the flagged one is what is left. */
  lemma TwinRun(inp: Inputs)
    requires TwinInputs(inp)
    ensures Triage(inp) == Finished(ReportOf(inp), RecordOf(ReportOf(inp)), None)
    ensures ReportOf(inp).committed == [] && ReportOf(inp).flagged != []
    ensures |inp.Candidates()| == 2 && inp.Candidates()[1].verdict.verdictLabel == "accept"
  {
    TwinCandidates(inp);
    TwinKeepers(inp);
    TwinGroup(inp, inp.Candidates()[0], inp.Candidates()[1]);
    DeliversIff(inp);
  }

  /** There are such inputs: two tests whose files have the same text. */
  lemma TwinsExist(body: Verdict, derive: (string, string) -> string, attempt: GitSummary) returns (inp: Inputs)
    ensures TwinInputs(inp)
  {
    var f := Item(Some("f"), Some("f.py"), Label("flag"), Absent, body);
    var a := Item(Some("a"), Some("a.py"), Label("accept"), Absent, body);
    inp := Inputs([f, a], path => "", None, derive, "", attempt, "", "");
  }

  // ---- Status and counts ----

  /** A finished run says `triaged` exactly when there was a candidate to keep,
      however many were duplicates; otherwise it says `triaged_empty`. */
  lemma TriagedIff(inp: Inputs)
    ensures Triage(inp).Finished? ==> (Triage(inp).record.triaged <==> KeepersOf(inp) != [])
  {
    DeliversIff(inp);
    if inp.Candidates() == [] {
      assert KeepersOf(inp) == [];
    }
  }

  lemma DeliversIff(inp: Inputs)
    ensures ReportOf(inp).committed == [] && ReportOf(inp).flagged == [] <==> KeepersOf(inp) == []
  {
    var keepers := KeepersOf(inp);
    KeepersAreDelivered(inp.Orders().decisions, inp.Candidates());
    KeptIsEmptyIff(keepers);
    SameLength(Kept(keepers));
  }

  lemma SameLength(cs: seq<Candidate>)
    ensures |Rank(cs)| == |cs|
  {
    SortedPermutation(RankKey, cs);
    assert |multiset(Rank(cs))| == |Rank(cs)| && |multiset(cs)| == |cs|;
  }

  lemma KeptIsEmptyIff(cs: seq<Candidate>)
    ensures Kept(cs) == [] <==> cs == []
  {
    TwoPassesAreOne(cs);
    if cs != [] {
      var f := FirstFor(NormalKey(), cs, cs[0]);
    }
  }

  /** Nothing landed: there was something to commit, and no branch, nothing
      readable, or a git writer that failed. */
  predicate Undelivered(inp: Inputs, r: Report) {
    r.committed != [] &&
    (inp.branch == "" || NothingReadable(r.committed + r.flagged) || !(inp.attempt.Wrote? && inp.attempt.ok))
  }

  predicate NothingReadable(cs: seq<Candidate>) {
    forall i :: 0 <= i < |cs| ==> cs[i].source == ""
  }

  /** What git is offered: the file and the source of every candidate whose source
      could be read. */
  lemma {:induction false} ReadableMeans(cs: seq<Candidate>, file: string, source: string)
    ensures (file, source) in Readable(cs) <==>
      source != "" && exists c :: c in cs && c.testFile == file && c.source == source
    ensures Readable(cs) == [] <==> NothingReadable(cs)
  {
    if cs != [] {
      ReadableMeans(cs[1..], file, source);
      assert cs == [cs[0]] + cs[1..];
      assert forall c :: c in cs <==> c == cs[0] || c in cs[1..];
    }
  }

  predicate CountsMatch(inp: Inputs, o: Outcome)
    requires o.Finished?
  {
    o.record.acceptedCount == |o.report.committed| && o.record.rejectedCount == |o.report.rejected| &&
    o.record.flaggedCount == |o.report.flagged| && o.record.collisionCount == |o.report.collisions| &&
    o.report.dedupInputCount == |KeepersOf(inp)| &&
    o.record.committedCount == o.report.CommittedCount() && o.report.AcceptedCount() == o.record.acceptedCount &&
    (o.report.deliveryError.Some? <==> Undelivered(inp, o.report)) &&
    o.record.committedCount == (if Undelivered(inp, o.report) then 0 else o.record.acceptedCount)
  }

  lemma ConcludedAgrees(inp: Inputs, r: Report, after: Option<Result<seq<Entry>>>)
    requires r.deliveryError.Some? <==> Undelivered(inp, r)
    requires r.deliveryError.Some? ==> r.deliveryError.value != ""
    requires r.dedupInputCount == |KeepersOf(inp)|
    ensures Concluded(r, after).Finished? ==> CountsMatch(inp, Concluded(r, after))
  {
  }

  /** Report and status agree on every count, and both say zero committed
      exactly when nothing was accepted or nothing landed. */
  lemma CountsAgree(inp: Inputs)
    ensures Triage(inp).Finished? ==> CountsMatch(inp, Triage(inp))
  {
    ErrorIff(inp);
    if AllObjects(inp.items) {
      if inp.Candidates() == [] {
        ConcludedAgrees(inp, EmptyReport(), None);
      } else {
        ConcludedAgrees(inp, ReportOf(inp), CatalogAfter(inp));
      }
    }
  }

  /** The report's lists say what they are called: its rejected, flagged and
      committed candidates are those with that label, rejected ones straight from
      the file, the others from what survives. */
  lemma BucketsMean(inp: Inputs, c: Candidate)
    ensures c in ReportOf(inp).rejected <==> c in inp.Candidates() && c.verdict.verdictLabel == "reject"
    ensures c in ReportOf(inp).committed <==> c in Survivors(inp) && c.verdict.verdictLabel == "accept"
    ensures c in ReportOf(inp).flagged <==> c in Survivors(inp) && c.verdict.verdictLabel == "flag"
  {
    FilterMembers((x: Candidate) => x.verdict.verdictLabel == "reject", inp.Candidates());
    var kept := Survivors(inp);
    SortedPermutation(RankKey, kept);
    assert c in kept <==> c in multiset(kept);
    assert c in Rank(kept) <==> c in multiset(Rank(kept));
    LabelledIn("accept", Rank(kept));
    LabelledIn("flag", Rank(kept));
  }

  lemma ErrorIff(inp: Inputs)
    ensures var r := ReportOf(inp);
      (r.deliveryError.Some? <==> Undelivered(inp, r)) && (r.deliveryError.Some? ==> r.deliveryError.value != "")
  {
    var r := ReportOf(inp);
    DeliveryErrorSpeaks(GitStep(r.committed, r.flagged, inp.branch, inp.attempt));
    ReadableMeans(r.committed + r.flagged, "", "");
  }

  // ---- The catalog after a run ----

  function Applicants(inp: Inputs): seq<Candidate> {
    Keepers(inp.Orders().decisions, inp.Candidates()) + Skipped(inp.Orders().decisions, inp.Candidates())
  }

  lemma ApplicantsWanted(inp: Inputs)
    ensures forall i :: 0 <= i < |Applicants(inp)| ==> Wanted(Applicants(inp)[i])
    ensures forall c :: c in Applicants(inp) ==> c in inp.Candidates()
  {
    var decisions, cs := inp.Orders().decisions, inp.Candidates();
    FilterMembers((c: Candidate) => Wanted(c) && !IsSkipped(decisions, c), cs);
    FilterMembers((c: Candidate) => Wanted(c) && IsSkipped(decisions, c), cs);
    forall c | c in Applicants(inp)
      ensures Wanted(c) && c in cs
    {
      assert c in Keepers(decisions, cs) || c in Skipped(decisions, cs);
    }
    forall i | 0 <= i < |Applicants(inp)|
      ensures Wanted(Applicants(inp)[i])
    {
      assert Applicants(inp)[i] in Applicants(inp);
    }
  }

  lemma CatalogClosedForm(inp: Inputs)
    requires inp.catalog.Some? && AllChecked(inp.catalog.value)
    ensures CatalogAfter(inp) == Some(ClosedForm(inp.Orders(), inp.catalog.value, Applicants(inp)))
    ensures TargetsIn(inp.Orders(), inp.catalog.value)
  {
    DecidedTargets(inp.Candidates(), inp.catalog.value, inp.derive, inp.task, inp.now);
    ApplicantsWanted(inp);
    forall i | 0 <= i < |Applicants(inp)|
      ensures ValidLastVerdict(Applicants(inp)[i].verdict.verdictLabel)
    {
      assert Wanted(Applicants(inp)[i]);
    }
    MutationClosedForm(inp.Orders(), inp.catalog.value, Applicants(inp));
  }

  /** The first candidate to create some file names a lane that does not exist. */
  ghost predicate CreatesBadLane(inp: Inputs)
    requires inp.catalog.Some?
  {
    exists k: nat, path :: FirstCreator(inp.Orders(), inp.catalog.value, Applicants(inp), k, path) &&
                           BadLane(Applicants(inp)[k])
  }

  predicate BadLane(c: Candidate) {
    c.verdict.lane !in {"", "unit", "browser", "api", "integration", "mutation"}
  }

  lemma BadLaneIff(b: Batch, c: Candidate, e: Entry)
    requires Registers(b, c, e)
    ensures ValidLane(e.lane) <==> !BadLane(c)
  {
  }

  lemma CreatesBadLaneIff(inp: Inputs)
    requires inp.catalog.Some?
    ensures CreatesBadLane(inp) <==>
      exists e :: e in Created(inp.Orders(), inp.catalog.value, Applicants(inp)) && !ValidLane(e.lane)
  {
    var b, es, cs := inp.Orders(), inp.catalog.value, Applicants(inp);
    if e :| e in Created(b, es, cs) && !ValidLane(e.lane) {
      CreatedIff(b, es, cs, e);
      var k: nat :| FirstCreator(b, es, cs, k, e.testFile) && Registers(b, cs[k], e);
      BadLaneIff(b, cs[k], e);
    }
    if CreatesBadLane(inp) {
      var k: nat, path :| FirstCreator(b, es, cs, k, path) && BadLane(cs[k]);
      CreatesAtIs(b, cs[k], path);
      var e := b.NewEntry(cs[k]);
      RegistersNew(b, cs[k], e);
      BadLaneIff(b, cs[k], e);
      CreatedIff(b, es, cs, e);
    }
  }

  ghost predicate HasNonObject(items: seq<Item>) {
    exists i :: 0 <= i < |items| && items[i].NotAnObject?
  }

  /** A run fails exactly when an element is no object, or when a test it would add to
      the catalog is in a lane that does not exist. */
  lemma FailsIff(inp: Inputs)
    requires inp.catalog.Some? ==> AllChecked(inp.catalog.value)
    ensures Triage(inp).Failed? <==>
      HasNonObject(inp.items) || (inp.Candidates() != [] && inp.catalog.Some? && CreatesBadLane(inp))
  {
    assert AllObjects(inp.items) <==> !HasNonObject(inp.items);
    if inp.catalog.Some? {
      CatalogClosedForm(inp);
      CreatesBadLaneIff(inp);
    }
  }

  /** So a run over validated verdicts fails only because of such a lane. */
  lemma ValidatedFailsIff(inp: Inputs)
    requires Validated(inp.items) && inp.Candidates() != []
    requires inp.catalog.Some? ==> AllChecked(inp.catalog.value)
    ensures Triage(inp).Failed? <==> inp.catalog.Some? && CreatesBadLane(inp)
  {
    forall i | 0 <= i < |inp.items|
      ensures inp.items[i].Item?
    {
      assert ProblemOf(inp.items[i]) == None;
    }
    FailsIff(inp);
  }

  /** The catalog a run saves is one its decisions lead to, and operator locks
      survive it exactly when no deciding candidate slips past one. */
  lemma RunCatalog(inp: Inputs, out: seq<Entry>)
    requires inp.catalog.Some? && AllChecked(inp.catalog.value) && CatalogAfter(inp) == Some(Ok(out))
    ensures CatalogStep(inp.Orders(), inp.catalog.value, Applicants(inp), out)
    ensures DistinctFiles(inp.catalog.value) ==>
      (LockedKept(inp.catalog.value, out) <==>
       forall c :: c in Applicants(inp) ==> HasDecider(inp.Candidates(), c.testId) &&
                                            !BypassesLock(Decider(inp.Candidates(), c.testId), inp.catalog.value))
  {
    var es := inp.catalog.value;
    CatalogClosedForm(inp);
    ApplicantsWanted(inp);
    forall c | c in Applicants(inp)
      ensures HasDecider(inp.Candidates(), c.testId)
    {
      var i :| 0 <= i < |Applicants(inp)| && Applicants(inp)[i] == c;
      assert Wanted(Applicants(inp)[i]);
    }
    if DistinctFiles(es) {
      RunKeepsLocksIff(inp.Candidates(), Applicants(inp), es, inp.derive, inp.task, inp.now, out);
    }
  }
}
