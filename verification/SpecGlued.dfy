/** A line that joins a bullet from before its own heading. */
module SpecGlued {
  import opened Options
  import opened Text
  import opened SpecText
  import opened SpecSources
  import opened SpecRoundTrip
  import opened SpecLines

  /** Four lines: the heading of the criteria, a bullet, a deeper heading that does
      not name the criteria, and text. */
  ghost predicate FourLines(opener: string, bullet: string, heading: string, line: string, one: string, two: string) {
    CriteriaLine(opener) &&
    HeadingOf(bullet).None? && BulletOf(bullet) == Some(one) &&
    Deeper(heading, 2) && !NamesCriteria(HeadingOf(heading).value.text) &&
    HeadingOf(line).None? && BulletOf(line).None? && Strip(line) == two && two != ""
  }

  /** What each of the four lines does to the state. */
  lemma EachStep(opener: string, bullet: string, heading: string, line: string, one: string, two: string)
    requires FourLines(opener, bullet, heading, line, one, two)
    ensures Step(START, opener, false) == Scan(true, 2, false, false, [], [])
    ensures Step(Scan(true, 2, false, false, [], []), bullet, false) == Scan(true, 2, false, true, [one], [])
    ensures Step(Scan(true, 2, false, true, [one], []), heading, false) == Scan(true, 2, false, true, [one], [heading])
    ensures Step(Scan(true, 2, false, true, [one], [heading]), line, false).criteria == [one + " " + two]
  {
  }

  lemma ScanTwo(s: Scan, a: string, b: string)
    ensures ScanFrom(s, [a, b], false) == Step(Step(s, a, false), b, false)
  {
    ScanSnoc(s, [a], b, false);
    ScanOne(s, a, false);
    assert [a] + [b] == [a, b];
  }

  lemma ScanFour(s: Scan, a: string, b: string, c: string, d: string)
    ensures ScanFrom(s, [a, b, c, d], false) ==
            Step(Step(Step(Step(s, a, false), b, false), c, false), d, false)
  {
    ScanConcat(s, [a, b], [c, d], false);
    ScanTwo(s, a, b);
    ScanTwo(ScanFrom(s, [a, b], false), c, d);
    assert [a, b] + [c, d] == [a, b, c, d];
  }

  lemma FourSteps(opener: string, bullet: string, heading: string, line: string, one: string, two: string)
    requires FourLines(opener, bullet, heading, line, one, two)
    ensures ScanFrom(START, [opener, bullet, heading, line], false).criteria == [one + " " + two]
  {
    EachStep(opener, bullet, heading, line, one, two);
    ScanFour(START, opener, bullet, heading, line);
  }

  lemma FourParse(opener: string, bullet: string, heading: string, line: string, one: string, two: string,
                  title: string)
    requires FourLines(opener, bullet, heading, line, one, two)
    requires OneLiners([opener, bullet, heading, line])
    ensures var r := Parse(Join([opener, bullet, heading, line]) + "\n", title);
      r.Ok? && r.value.criteria == [Criterion(CriterionId(0), one + " " + two)]
  {
    var ls := [opener, bullet, heading, line];
    LinesReadBack(ls);
    assert ls[0] == opener && DeepCriteriaHeading(opener);
    FourSteps(opener, bullet, heading, line, one, two);
    ScanSolid(ls, false);
    NumberedSolid([one + " " + two]);
  }

  /** A line of text that is no heading and no bullet and has nothing to strip. */
  predicate Plain(word: string) {
    word != "" && Trimmed(word) && OneLiner(word) &&
    word[0] != '#' && word[0] != '-' && word[0] != '*' && word[0] != '+' && !IsDigit(word[0])
  }

  lemma PlainLine(word: string)
    requires Plain(word)
    ensures HeadingOf(word).None? && BulletOf(word).None? && Strip(word) == word && HasText(word)
  {
    NotAHeading(word);
    StartsHere(word);
    StripTrimmed(word);
  }

  lemma PlainBullet(word: string)
    requires Plain(word)
    ensures HeadingOf("- " + word).None? && BulletOf("- " + word) == Some(word) && OneLiner("- " + word)
  {
    var line := "- " + word;
    PlainLine(word);
    assert line == "-" + " " + word;
    NotAHeading(line);
    StartsHere(line);
    AfterSpace("-", word);
  }

  lemma PlainHeading(word: string)
    requires Plain(word) && |word| < 10
    ensures Deeper("### " + word, 2) && !NamesCriteria(HeadingOf("### " + word).value.text)
    ensures OneLiner("### " + word)
  {
    PlainLine(word);
    HeadingLine("###", word);
    assert "### " + word == "###" + " " + word;
    assert HeadingOf("### " + word) == Some(Heading(3, word));
    ShortNamesNothing(word);
    HeadingOneLiner("### ", word);
  }

  lemma HeadingOneLiner(lead: string, word: string)
    requires OneLiner(lead) && OneLiner(word)
    ensures OneLiner(lead + word)
  {
  }

  /** A text shorter than all three words that name the criteria names them not. */
  lemma {:induction false} ShortContainsNot(s: string, part: string)
    requires |s| < |part|
    ensures !Contains(s, part)
  {
    if s != "" {
      ShortContainsNot(s[1..], part);
    }
  }

  lemma ShortNamesNothing(text: string)
    requires |text| < 10
    ensures !NamesCriteria(text)
  {
    var low := Lower(text);
    ShortContainsNot(low, "acceptance criteria");
    ShortContainsNot(low, "acceptance");
    ShortContainsNot(low, "requirements");
  }

  lemma GluedLines(opener: string, one: string, next: string, two: string)
    requires CriteriaLine(opener) && OneLiner(opener)
    requires Plain(one) && Plain(next) && Plain(two) && |next| < 10
    ensures FourLines(opener, "- " + one, "### " + next, two, one, two)
    ensures OneLiners([opener, "- " + one, "### " + next, two])
  {
    PlainBullet(one);
    PlainHeading(next);
    PlainLine(two);
  }

  lemma OpenerOneLiner()
    ensures OneLiner("## " + CRITERIA_TITLE)
  {
  }

  /** For any three plain words, the document

        ## Acceptance Criteria
        - one
        ### next
        two

      is read as the one criterion "one two". */
  lemma GluedDocument(one: string, next: string, two: string, title: string)
    requires Plain(one) && Plain(next) && Plain(two) && |next| < 10
    ensures var r := Parse(Join(["## " + CRITERIA_TITLE, "- " + one, "### " + next, two]) + "\n", title);
      r.Ok? && r.value.criteria == [Criterion(CriterionId(0), one + " " + two)]
  {
    CriteriaHeading();
    OpenerOneLiner();
    GluedLines("## " + CRITERIA_TITLE, one, next, two);
    FourParse("## " + CRITERIA_TITLE, "- " + one, "### " + next, two, one, two, title);
  }

  /** There are such words. */
  lemma GluedExample() returns (one: string, next: string, two: string)
    ensures Plain(one) && Plain(next) && Plain(two) && |next| < 10
  {
    one, next, two := "one", "Next", "two";
  }
}
