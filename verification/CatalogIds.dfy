/** Which criterion an update is really about. */
module CatalogIds {
  import opened Options
  import opened Text
  import opened SpecText
  import opened TriageDedup
  import opened Catalog

  // When no entry lists the criterion word for word, the lookup takes the entries
  // that list something beginning with its id. The id of one criterion can be the
  // beginning of the id of another.

  /** Nothing the entry lists has the id of this criterion. */
  predicate Foreign(e: Entry, ac: string) {
    forall i :: 0 <= i < |e.coversAcs| ==> AcId(e.coversAcs[i]) != AcId(ac)
  }

  predicate NobodyCovers(es: seq<Entry>, ac: string) {
    forall e :: e in es ==> !Covers(e, ac)
  }

  function IdMatches(es: seq<Entry>, ac: string): seq<Entry> {
    Filter((e: Entry) => CoversId(e, AcId(ac)), es)
  }

  /** The lookup came to the ids and the first match is free. */
  predicate UpdatesById(es: seq<Entry>, ac: string) {
    ac != "" && AcId(ac) != "" && NobodyCovers(es, ac) &&
    IdMatches(es, ac) != [] && !IdMatches(es, ac)[0].operatorLocked
  }

  /** An update hits an entry that lists nothing with the id of the criterion exactly
      when no entry lists it word for word, the first match by id is not locked,
      and the newest match by id lists longer ids only. */
  lemma ForeignUpdateIff(c: Candidate, es: seq<Entry>)
    ensures var ac := CandidateAc(c);
      Decide(c, Some(es)).Update? && Foreign(Newest(Matches(c, es)), ac) <==>
      UpdatesById(es, ac) && Foreign(Newest(IdMatches(es, ac)), ac)
  {
    var ac := CandidateAc(c);
    FilterEmptyIff((e: Entry) => Covers(e, ac), es);
    if !NobodyCovers(es, ac) {
      CoveredIsNotForeign(es, ac);
    }
  }

  /** A word-for-word match is never foreign. */
  lemma CoveredIsNotForeign(es: seq<Entry>, ac: string)
    requires !NobodyCovers(es, ac)
    ensures var exact := Filter((e: Entry) => Covers(e, ac), es);
      exact != [] && LookupByAc(es, ac) == exact && !Foreign(Newest(exact), ac)
  {
    var exact := (e: Entry) => Covers(e, ac);
    FilterMembers(exact, es);
    FilterEmptyIff(exact, es);
    NewestIsNewest(Filter(exact, es));
    CoversIsOwn(Newest(Filter(exact, es)), ac);
  }

  lemma CoversIsOwn(e: Entry, ac: string)
    ensures Covers(e, ac) ==> !Foreign(e, ac)
  {
  }

  // ---- Numbered criteria ----

  /** A criterion as the spec numbers it, with its text after a colon. */
  function Worded(i: nat, text: string): string {
    CriterionId(i) + ":" + text
  }

  lemma {:induction false} BeforeColonOf(id: string, rest: string)
    requires forall k :: 0 <= k < |id| ==> id[k] != ':'
    ensures BeforeColon(id + ":" + rest) == id
  {
    var s := id + ":" + rest;
    if id != "" {
      assert s[1..] == id[1..] + ":" + rest;
      BeforeColonOf(id[1..], rest);
    }
  }

  lemma IdIsPlain(i: nat)
    ensures var id := CriterionId(i);
      Trimmed(id) && forall k :: 0 <= k < |id| ==> id[k] != ':'
  {
    var id, digits := CriterionId(i), Decimal(i + 1);
    DecimalDigits(i + 1);
    assert id[0] == 'A' && id[1] == 'C' && id[2] == '#' && id[3..] == digits;
    forall k | 3 <= k < |id|
      ensures IsDigit(id[k])
    {
      assert id[k] == digits[k - 3];
    }
  }

  /** The id is read off again. */
  lemma WordedId(i: nat, text: string)
    ensures AcId(Worded(i, text)) == CriterionId(i)
  {
    IdIsPlain(i);
    BeforeColonOf(CriterionId(i), text);
    StripTrimmed(CriterionId(i));
  }

  /** A criterion begins with the id of another exactly when its number begins with
      the digits of the other's. */
  lemma BeginsIff(i: nat, j: nat, text: string)
    ensures StartsWith(Worded(j, text), CriterionId(i)) <==> StartsWith(Decimal(j + 1), Decimal(i + 1))
  {
    var di, dj, tail := Decimal(i + 1), Decimal(j + 1), ":" + text;
    DecimalBegins(i + 1, j + 1, tail);
    assert Worded(j, text) == "AC#" + (dj + tail);
    SameStart("AC#", dj + tail, di);
  }

  lemma SameStart(lead: string, s: string, prefix: string)
    ensures StartsWith(lead + s, lead + prefix) <==> StartsWith(s, prefix)
  {
    var a := lead + s;
    if |prefix| <= |s| {
      assert a[..|lead| + |prefix|] == lead + s[..|prefix|];
      assert (lead + prefix)[|lead|..] == prefix && (lead + s[..|prefix|])[|lead|..] == s[..|prefix|];
    }
  }

  /** The entry lists these criteria of a spec, in whatever words. */
  ghost predicate Lists(e: Entry, js: seq<nat>) {
    |e.coversAcs| == |js| && forall k :: 0 <= k < |js| ==> exists text :: e.coversAcs[k] == Worded(js[k], text)
  }

  lemma ListsOne(e: Entry, j: nat, text: string)
    requires e.coversAcs == [Worded(j, text)]
    ensures Lists(e, [j])
  {
    assert e.coversAcs[0] == Worded([j][0], text);
  }

  /** For entries made from a spec: an entry is found by the id of criterion `i`
      exactly when the digits of `i` begin those of one it lists, and it is
      foreign exactly when it does not list `i`. */
  lemma NumberedMatch(e: Entry, js: seq<nat>, i: nat, text: string)
    requires Lists(e, js)
    ensures CoversId(e, CriterionId(i)) <==>
            exists k :: 0 <= k < |js| && StartsWith(Decimal(js[k] + 1), Decimal(i + 1))
    ensures Foreign(e, Worded(i, text)) <==> i !in js
  {
    WordedId(i, text);
    forall k | 0 <= k < |js|
      ensures StartsWith(e.coversAcs[k], CriterionId(i)) <==> StartsWith(Decimal(js[k] + 1), Decimal(i + 1))
      ensures AcId(e.coversAcs[k]) == AcId(Worded(i, text)) <==> js[k] == i
    {
      var other :| e.coversAcs[k] == Worded(js[k], other);
      BeginsIff(i, js[k], other);
      WordedId(js[k], other);
      IdsDistinct(js[k], i);
    }
  }

  /** The failing family: a free entry alone in the catalog, for another criterion
      whose number begins with the digits of the candidate's, is updated. */
  lemma ForeignIsUpdated(c: Candidate, e: Entry, i: nat, j: nat, text: string, other: string)
    requires CandidateAc(c) == Worded(i, text) && e.coversAcs == [Worded(j, other)] && !e.operatorLocked
    requires i != j && StartsWith(Decimal(j + 1), Decimal(i + 1))
    ensures Decide(c, Some([e])) == Update(e.testFile) && Foreign(e, CandidateAc(c))
  {
    var ac := CandidateAc(c);
    ListsOne(e, j, other);
    NumberedMatch(e, [j], i, text);
    WordedId(i, text);
    assert [j][0] == j;
    CoversIsOwn(e, ac);
    OneEntry(e, ac);
  }

  /** The lookup in a catalog of one entry. */
  lemma OneEntry(e: Entry, ac: string)
    requires !Covers(e, ac) && CoversId(e, AcId(ac)) && AcId(ac) != ""
    ensures LookupByAc([e], ac) == [e]
  {
    FilterOne((x: Entry) => Covers(x, ac), e);
    FilterOne((x: Entry) => CoversId(x, AcId(ac)), e);
  }

  lemma FilterOne(keep: Entry -> bool, e: Entry)
    ensures Filter(keep, [e]) == if keep(e) then [e] else []
  {
    assert Filter(keep, [e]) == (if keep(e) then [e] else []) + Filter(keep, []);
  }

  lemma OneAndTen()
    ensures CriterionId(0) == "AC#1" && CriterionId(9) == "AC#10"
    ensures StartsWith(Decimal(10), Decimal(1))
  {
    assert Decimal(1) == "1" && Decimal(10) == "1" + "0";
  }

  /** A test for "AC#1: logs in" is written over the test for "AC#10: logs out". */
  lemma LogsInHitsLogsOut(c: Candidate, e: Entry)
    requires CandidateAc(c) == "AC#1" + ":" + " logs in"
    requires e.coversAcs == ["AC#10" + ":" + " logs out"] && !e.operatorLocked
    ensures Decide(c, Some([e])) == Update(e.testFile) && Foreign(e, CandidateAc(c))
  {
    OneAndTen();
    ForeignIsUpdated(c, e, 0, 9, " logs in", " logs out");
  }
}
