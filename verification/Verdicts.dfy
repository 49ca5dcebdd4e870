/** `verdicts.json`: what the Evaluator lets through and what the Triager makes
    of it. */
module Verdicts {
  import opened Options
  import opened TriageDedup

  /** The `verdict` field. A list or an object cannot be looked up in a frozenset:
      the lookup raises. */
  datatype LabelField = NoLabel | Label(word: string) | OtherLabel | Unhashable

  /** `signals_summary.coverage_delta_pct`; `parsed` is what `float` makes of a
      value that is not a number. */
  datatype CoverageField = Absent | Null | Number(value: real) | NotANumber(parsed: Option<real>)

  /** One element of the array. `body` holds the fields nothing here decides on. */
  datatype Item =
    | NotAnObject
    | Item(testId: Option<string>, testFile: Option<string>, verdict: LabelField, coverage: CoverageField,
        body: Verdict)

  /** What reading the file comes to. `salvaged`: there was text around the JSON. */
  datatype Document =
    | Missing
    | NotJson
    | NotARootObject
    | NoArray(salvaged: bool)
    | Array(salvaged: bool, items: seq<Item>)

  datatype Problem = ItemNotAnObject | NoTestId | LookupRaises | BadVerdict | BadCoverage

  /** `ItemRaised`: an exception leaves the validation at this element. */
  datatype Validation =
    | Valid(count: nat)
    | BadFile
    | BadItem(at: nat, problem: Problem)
    | ItemRaised(at: nat)

  predicate ValidWord(word: string) {
    word == "accept" || word == "reject" || word == "flag"
  }

  /** The first thing wrong with an element. */
  function ProblemOf(item: Item): Option<Problem> {
    if item.NotAnObject? then Some(ItemNotAnObject)
    else if item.testId.None? then Some(NoTestId)
    else if item.verdict.Unhashable? then Some(LookupRaises)
    else if !item.verdict.Label? || !ValidWord(item.verdict.word) then Some(BadVerdict)
    else if item.coverage.NotANumber? then Some(BadCoverage)
    else None
  }

  predicate FirstProblem(items: seq<Item>, at: nat, problem: Problem) {
    at < |items| && ProblemOf(items[at]) == Some(problem) && forall i :: 0 <= i < at ==> ProblemOf(items[i]) == None
  }

  /** A number where the framework has no coverage: worth a warning, no more. */
  predicate Odd(item: Item, skipIds: set<string>) {
    item.Item? && item.testId.Some? && item.testId.value in skipIds && item.coverage.Number?
  }

  /** `_validate_verdicts`: accepts a file exactly when nothing is wrong with any
      element, otherwise stops at the first one there is something wrong with,
      and rewrites a salvaged file whether it is accepted or not. */
  method ValidateVerdicts(doc: Document, skipIds: set<string>)
    returns (v: Validation, warned: seq<nat>, rewritten: bool)
    ensures v.Valid? <==> doc.Array? && forall i :: 0 <= i < |doc.items| ==> ProblemOf(doc.items[i]) == None
    ensures v.Valid? ==> v.count == |doc.items|
    ensures v.BadItem? ==> doc.Array? && FirstProblem(doc.items, v.at, v.problem) && !v.problem.LookupRaises?
    ensures v.ItemRaised? ==> doc.Array? && FirstProblem(doc.items, v.at, LookupRaises)
    ensures v.BadFile? <==> !doc.Array?
    ensures rewritten <==> (doc.NoArray? || doc.Array?) && doc.salvaged
    ensures forall i :: i in warned ==> doc.Array? && i < |doc.items| && Odd(doc.items[i], skipIds)
    ensures v.Valid? ==> forall i :: 0 <= i < |doc.items| && Odd(doc.items[i], skipIds) ==> i in warned
  {
    warned, rewritten := [], false;
    if doc.Missing? || doc.NotJson? || doc.NotARootObject? {
      return BadFile, warned, rewritten;
    }
    rewritten := doc.salvaged;
    if doc.NoArray? {
      return BadFile, warned, rewritten;
    }
    for i := 0 to |doc.items|
      invariant forall k :: 0 <= k < i ==> ProblemOf(doc.items[k]) == None
      invariant forall k :: k in warned ==> k < |doc.items| && Odd(doc.items[k], skipIds)
      invariant forall k :: 0 <= k < i && Odd(doc.items[k], skipIds) ==> k in warned
    {
      var item := doc.items[i];
      if item.NotAnObject? {
        return BadItem(i, ItemNotAnObject), warned, rewritten;
      }
      if item.testId.None? {
        return BadItem(i, NoTestId), warned, rewritten;
      }
      if item.verdict.Unhashable? {
        return ItemRaised(i), warned, rewritten;
      }
      if !item.verdict.Label? || !ValidWord(item.verdict.word) {
        return BadItem(i, BadVerdict), warned, rewritten;
      }
      if item.coverage.NotANumber? {
        return BadItem(i, BadCoverage), warned, rewritten;
      }
      if item.testId.value in skipIds && item.coverage.Number? {
        warned := warned + [i];
      }
    }
    v := Valid(|doc.items|);
  }

  // ---- The Triager's reading of the same elements ----

  /** `verdict.get("verdict", "?")` */
  function LabelText(field: LabelField): string {
    match field
    case NoLabel => "?"
    case Label(word) => word
    case OtherLabel => "not a word"
    case Unhashable => "not a word"
  }

  /** `_coverage_delta_pct` */
  function CoverageValue(field: CoverageField): real {
    match field
    case Absent => 0.0
    case Null => 0.0
    case Number(value) => value
    case NotANumber(parsed) => if parsed.Some? then parsed.value else 0.0
  }

  predicate Named(field: Option<string>) {
    field.Some? && field.value != ""
  }

  /** An element the Triager can work with has an id and a file. */
  predicate Usable(item: Item) {
    item.Item? && Named(item.testId) && Named(item.testFile)
  }

  function CandidateOf(item: Item, read: string -> string): Candidate
    requires Usable(item)
  {
    var verdict := item.body.(verdictLabel := LabelText(item.verdict), coverageDelta := CoverageValue(item.coverage));
    Candidate(item.testId.value, item.testFile.value, verdict, read(item.testFile.value))
  }

  function CandidatesOf(items: seq<Item>, read: string -> string): seq<Candidate> {
    if items == [] then []
    else
      var front := CandidatesOf(items[..|items| - 1], read);
      var item := items[|items| - 1];
      if Usable(item) then front + [CandidateOf(item, read)] else front
  }

  /** Step 2 of `run_triager`; `read` gives the source of a test file, "" when it
      cannot be read. An element that is no object raises. */
  method CollectCandidates(items: seq<Item>, read: string -> string) returns (r: Result<seq<Candidate>>)
    ensures r.Ok? <==> forall i :: 0 <= i < |items| ==> items[i].Item?
    ensures r.Ok? ==> r.value == CandidatesOf(items, read)
  {
    var candidates := [];
    for k := 0 to |items|
      invariant forall i :: 0 <= i < k ==> items[i].Item?
      invariant candidates == CandidatesOf(items[..k], read)
    {
      var item := items[k];
      assert items[..k + 1][..k] == items[..k];
      if item.NotAnObject? {
        return Raised("no attribute 'get'");
      }
      if Named(item.testId) && Named(item.testFile) {
        candidates := candidates + [CandidateOf(item, read)];
      }
    }
    assert items[..|items|] == items;
    r := Ok(candidates);
  }

  ghost predicate Validated(items: seq<Item>) {
    forall i :: 0 <= i < |items| ==> ProblemOf(items[i]) == None
  }

  predicate KnownLabel(c: Candidate) {
    Wanted(c) || c.verdict.verdictLabel == "reject"
  }

  /** `c` is what the element says: its id, its file and the source of that file, its
      label if it has one, and its coverage, which is zero unless it is a number or
      can be read as one. */
  ghost predicate Says(item: Item, read: string -> string, c: Candidate) {
    item.Item? && item.testId == Some(c.testId) && c.testId != "" && item.testFile == Some(c.testFile) &&
    c.testFile != "" && c.source == read(c.testFile) &&
    (match item.verdict
     case Label(word) => c.verdict.verdictLabel == word
     case _ => !KnownLabel(c)) &&
    c.verdict.coverageDelta ==
      (match item.coverage
       case Number(value) => value
       case NotANumber(Some(value)) => value
       case _ => 0.0) &&
    c.verdict == item.body.(verdictLabel := c.verdict.verdictLabel, coverageDelta := c.verdict.coverageDelta)
  }

  ghost predicate SaidBySome(items: seq<Item>, read: string -> string, c: Candidate) {
    exists i :: 0 <= i < |items| && Says(items[i], read, c)
  }

  ghost predicate IdAndFile(item: Item) {
    item.Item? && item.testId.Some? && item.testId.value != "" && item.testFile.Some? && item.testFile.value != ""
  }

  lemma CandidateSays(item: Item, read: string -> string)
    requires Usable(item)
    ensures Says(item, read, CandidateOf(item, read))
  {
  }

  lemma {:induction false} CandidatesAreSaid(items: seq<Item>, read: string -> string, c: Candidate)
    requires c in CandidatesOf(items, read)
    ensures SaidBySome(items, read, c)
  {
    var n := |items| - 1;
    var front := items[..n];
    if c in CandidatesOf(front, read) {
      CandidatesAreSaid(front, read, c);
      var i :| 0 <= i < n && Says(front[i], read, c);
      assert items[i] == front[i];
    } else {
      CandidateSays(items[n], read);
    }
  }

  lemma {:induction false} ElementIsSaid(items: seq<Item>, read: string -> string, i: nat) returns (c: Candidate)
    requires i < |items| && IdAndFile(items[i])
    ensures c in CandidatesOf(items, read) && Says(items[i], read, c)
  {
    var n := |items| - 1;
    if i < n {
      c := ElementIsSaid(items[..n], read, i);
    } else {
      CandidateSays(items[n], read);
      c := CandidateOf(items[n], read);
    }
  }

  /** Every candidate is what some element says, and every element with an id and a
      file becomes one. */
  lemma CandidatesMean(items: seq<Item>, read: string -> string)
    ensures forall c :: c in CandidatesOf(items, read) ==> SaidBySome(items, read, c)
    ensures forall i :: 0 <= i < |items| && IdAndFile(items[i]) ==>
      exists c :: c in CandidatesOf(items, read) && Says(items[i], read, c)
  {
    forall c | c in CandidatesOf(items, read)
      ensures SaidBySome(items, read, c)
    {
      CandidatesAreSaid(items, read, c);
    }
    forall i | 0 <= i < |items| && IdAndFile(items[i])
      ensures exists c :: c in CandidatesOf(items, read) && Says(items[i], read, c)
    {
      var c := ElementIsSaid(items, read, i);
    }
  }

  /** The Evaluator lets a word through exactly when the Triager knows it as a label;
      so nothing is wrong with an element exactly when it has an id, such a label,
      and a coverage that is no text. */
  lemma FineIff(item: Item, read: string -> string)
    requires Usable(item)
    ensures ProblemOf(item) == None <==>
      item.verdict.Label? && KnownLabel(CandidateOf(item, read)) && !item.coverage.NotANumber?
  {
  }

  /** Whatever the Evaluator accepts, the Triager can put in a bucket; and a
      verdict is dropped only for want of an id or a file. */
  lemma {:induction false} ValidatedLabels(items: seq<Item>, read: string -> string)
    requires Validated(items)
    ensures forall c :: c in CandidatesOf(items, read) ==> KnownLabel(c)
    ensures forall i :: 0 <= i < |items| && Named(items[i].testId) && Named(items[i].testFile) ==>
      CandidateOf(items[i], read) in CandidatesOf(items, read)
  {
    if items != [] {
      var n := |items| - 1;
      ValidatedLabels(items[..n], read);
      assert ProblemOf(items[n]) == None;
      forall i | 0 <= i < |items| && Named(items[i].testId) && Named(items[i].testFile)
        ensures Usable(items[i]) && CandidateOf(items[i], read) in CandidatesOf(items, read)
      {
        assert ProblemOf(items[i]) == None;
        if i < n {
          assert items[..n][i] == items[i];
        }
      }
    }
  }
}
