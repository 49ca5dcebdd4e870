/** What is printed is read back. The proof goes through the printed lines one by
    one: the title, the description, the heading of the criteria, the bullets and
    the closing quote; and a description that does not come back is recognised by
    what it has lost. */
module SpecRoundTrip {
  import opened Options
  import opened Text
  import opened SpecText
  import opened SpecSources

  // ---- The printed lines, one by one ----

  lemma AllSpaceOne()
    ensures AllSpace("") && AllSpace(" ") && AllSpace("\n")
  {
  }

  lemma StripAround(before: string, s: string, after: string)
    requires AllSpace(before) && AllSpace(after)
    ensures Strip(before + s + after) == Strip(s)
  {
    var b, a := StripParts(s);
    if Strip(s) == "" {
      assert before + s + after == before + (b + a + after);
      AllSpaceConcat(b, a);
      AllSpaceConcat(b + a, after);
      AllSpaceConcat(before, b + a + after);
      StripSpaces(before + s + after);
    } else {
      AllSpaceConcat(before, b);
      AllSpaceConcat(a, after);
      StripIs(before + b, Strip(s), a + after);
      assert before + s + after == (before + b) + Strip(s) + (a + after);
    }
  }

  lemma StartsHere(s: string)
    requires s != "" && !IsSpace(s[0])
    ensures LStrip(s) == s
  {
  }

  lemma TextInFront(s: string)
    requires s != "" && !IsSpace(s[0])
    ensures HasText(s)
  {
    StripEmptyIff(s);
  }

  lemma AfterSpace(marker: string, text: string)
    requires HasText(text)
    ensures AfterMarker(marker + " " + text, |marker|) == Some(Strip(text))
  {
    var s := marker + " " + text;
    assert s[|marker|..] == " " + text;
    AllSpaceOne();
    StripAround(" ", text, "");
    assert " " + text + "" == " " + text;
  }

  lemma HashLenOf(hashes: string, rest: string)
    requires forall i :: 0 <= i < |hashes| ==> hashes[i] == '#'
    requires rest == "" || rest[0] != '#'
    ensures HashLen(hashes + rest) == |hashes|
  {
    if hashes == "" {
      assert hashes + rest == rest;
    } else {
      assert (hashes + rest)[1..] == hashes[1..] + rest;
      HashLenOf(hashes[1..], rest);
    }
  }

  lemma HeadingLine(hashes: string, text: string)
    requires 1 <= |hashes| <= 6 && (forall i :: 0 <= i < |hashes| ==> hashes[i] == '#') && HasText(text)
    ensures HeadingOf(hashes + " " + text) == Some(Heading(|hashes|, Strip(text)))
  {
    var s := hashes + " " + text;
    assert s[0] == '#' && !IsSpace('#');
    StartsHere(s);
    assert s == hashes + (" " + text);
    HashLenOf(hashes, " " + text);
    AfterSpace(hashes, text);
  }

  lemma NotAHeading(line: string)
    requires line == "" || (!IsSpace(line[0]) && line[0] != '#')
    ensures HeadingOf(line) == None
  {
  }

  lemma TitleText(title: string)
    requires HasText(title)
    ensures StartsWith(Strip("# " + title), "# ") && Strip(Strip("# " + title)[2..]) == Strip(title)
  {
    var b, a := StripParts(title);
    var m := Strip(title);
    var s := "# " + b + m;
    assert s[0] == '#' && s[|s| - 1] == m[|m| - 1];
    StripIs("", s, a);
    assert "# " + title == "" + s + a;
    assert Strip("# " + title) == s;
    assert s[..2] == "# " && s[2..] == b + m;
    StripIs(b, m, "");
    assert b + m + "" == b + m;
  }

  lemma BulletIsRead(c: Criterion)
    ensures HeadingOf(BulletLine(c)) == None
    ensures HasText("**" + c.id + ":** " + c.text)
    ensures BulletOf(BulletLine(c)) == Some(Strip("**" + c.id + ":** " + c.text))
  {
    var body := "**" + c.id + ":** " + c.text;
    var line := BulletLine(c);
    assert line == "-" + " " + body;
    assert line[0] == '-' && !IsSpace('-');
    NotAHeading(line);
    StartsHere(line);
    TextInFront(body);
    AfterSpace("-", body);
  }

  lemma CriteriaText()
    ensures Strip(CRITERIA_TITLE) == CRITERIA_TITLE
  {
    var text := CRITERIA_TITLE;
    assert text[0] == 'A' && text[|text| - 1] == 'a';
    StripTrimmed(text);
  }

  /** `line` is a second-level heading that names the criteria. */
  ghost predicate CriteriaLine(line: string) {
    HeadingOf(line).Some? && HeadingOf(line).value.depth == 2 && NamesCriteria(HeadingOf(line).value.text)
  }

  lemma MakeCriteriaLine(lead: string, text: string)
    requires |lead| == 3 && lead[0] == '#' && lead[1] == '#' && lead[2] == ' '
    requires text != "" && Strip(text) == text && NamesCriteria(text)
    ensures CriteriaLine(lead + text)
  {
    HeadingLine(lead[..2], text);
    assert lead[..2] + " " + text == lead + text;
  }

  lemma CriteriaHeading()
    ensures CriteriaLine("## " + CRITERIA_TITLE)
  {
    CriteriaText();
    CriteriaNamed();
    MakeCriteriaLine("## ", CRITERIA_TITLE);
  }

  lemma CriteriaNamed()
    ensures NamesCriteria(CRITERIA_TITLE)
  {
    var low := Lower(CRITERIA_TITLE);
    assert low[..10] == "acceptance";
    assert StartsWith(low, "acceptance");
  }

  lemma QuoteLine(rest: string)
    ensures HeadingOf("> " + rest) == None && BulletOf("> " + rest) == None && Strip("> " + rest) != ""
  {
    var line := "> " + rest;
    assert line[0] == '>' && !IsSpace('>');
    NotAHeading(line);
    StartsHere(line);
    TextInFront(line);
  }

  lemma EmptyLine()
    ensures HeadingOf("") == None && BulletOf("") == None && Strip("") == ""
  {
  }

  // ---- Runs of lines ----

  lemma {:induction false} ScanConcat(s: Scan, a: seq<string>, b: seq<string>, titleMayOpen: bool)
    ensures ScanFrom(s, a + b, titleMayOpen) == ScanFrom(ScanFrom(s, a, titleMayOpen), b, titleMayOpen)
  {
    if b == [] {
      assert a + b == a;
    } else {
      assert (a + b)[..|a + b| - 1] == a + b[..|b| - 1];
      ScanConcat(s, a, b[..|b| - 1], titleMayOpen);
    }
  }

  lemma ScanSnoc(s: Scan, ls: seq<string>, line: string, titleMayOpen: bool)
    ensures ScanFrom(s, ls + [line], titleMayOpen) == Step(ScanFrom(s, ls, titleMayOpen), line, titleMayOpen)
  {
    assert (ls + [line])[..|ls|] == ls;
  }

  lemma ScanOne(s: Scan, line: string, titleMayOpen: bool)
    ensures ScanFrom(s, [line], titleMayOpen) == Step(s, line, titleMayOpen)
  {
    assert [line][..0] == [];
  }

  /** Prose after the title stays prose, headings and all. */
  lemma {:induction false} ProseRun(s: Scan, ls: seq<string>)
    requires !s.inSection && s.titleSeen && forall i :: 0 <= i < |ls| ==> !DeepCriteriaHeading(ls[i])
    ensures ScanFrom(s, ls, false) == s.(prose := s.prose + ls)
  {
    if ls == [] {
      assert s.prose + ls == s.prose;
    } else {
      var n := |ls| - 1;
      ProseRun(s, ls[..n]);
      ProseStep(s.(prose := s.prose + ls[..n]), ls[n]);
      assert s.prose + ls[..n] + [ls[n]] == s.prose + ls;
    }
  }

  lemma ProseStep(s: Scan, line: string)
    requires !s.inSection && s.titleSeen && !DeepCriteriaHeading(line)
    ensures Step(s, line, false) == s.(prose := s.prose + [line])
  {
  }

  function Printed(c: Criterion): string {
    Strip("**" + c.id + ":** " + c.text)
  }

  function PrintedAll(cs: seq<Criterion>): (ts: seq<string>)
    ensures |ts| == |cs| && forall i :: 0 <= i < |cs| ==> ts[i] == Printed(cs[i])
  {
    if cs == [] then [] else PrintedAll(cs[..|cs| - 1]) + [Printed(cs[|cs| - 1])]
  }

  lemma OneMore(a: seq<string>, b: seq<string>, text: string)
    ensures a + b + [text] == a + (b + [text])
  {
  }

  lemma BulletStep(s: Scan, c: Criterion)
    requires s.inSection
    ensures Step(s, BulletLine(c), false) == s.(criteria := s.criteria + [Printed(c)], continuing := true)
  {
    BulletIsRead(c);
  }

  lemma {:induction false} BulletRun(s: Scan, cs: seq<Criterion>)
    requires s.inSection
    ensures ScanFrom(s, BulletLines(cs), false) ==
            s.(criteria := s.criteria + PrintedAll(cs), continuing := s.continuing || cs != [])
  {
    if cs == [] {
      assert s.criteria + [] == s.criteria;
    } else {
      var n := |cs| - 1;
      BulletRun(s, cs[..n]);
      ScanSnoc(s, BulletLines(cs[..n]), BulletLine(cs[n]), false);
      BulletStep(ScanFrom(s, BulletLines(cs[..n]), false), cs[n]);
      OneMore(s.criteria, PrintedAll(cs[..n]), Printed(cs[n]));
    }
  }

  // ---- The printed document ----

  function Closing(format: string): string {
    "> " + Origin(format)
  }

  function DescriptionLines(description: string): seq<string> {
    if description != "" then Split(Strip(description)) + [""] else []
  }

  /** The lines of the printed text, in two halves. */
  function Front(s: Spec): seq<string> {
    ["# " + s.title, ""] + DescriptionLines(s.description)
  }

  function Footer(s: Spec, format: string): seq<string> {
    FooterUnder("## " + CRITERIA_TITLE, s.criteria, Closing(format))
  }

  function FooterUnder(heading: string, cs: seq<Criterion>, closing: string): seq<string> {
    [heading, ""] + BulletLines(cs) + ["", closing]
  }

  /** What a spec must be for its print to be read line by line. */
  ghost predicate Printable(s: Spec, format: string) {
    HasText(s.title) && OneLiner(s.title) && OneLiner(format) && s.criteria != [] &&
    (forall i :: 0 <= i < |s.criteria| ==> OneLiner(s.criteria[i].id) && OneLiner(s.criteria[i].text)) &&
    (forall i :: 0 <= i < |Strip(s.description)| ==>
      IsBreak(Strip(s.description)[i]) ==> Strip(s.description)[i] == '\n')
  }

  /** No line of the description is a heading below the top level that names
      the criteria. */
  predicate PlainDescription(s: Spec) {
    forall i :: 0 <= i < |Split(Strip(s.description))| ==> !DeepCriteriaHeading(Split(Strip(s.description))[i])
  }

  lemma {:induction false} SplitOneLiners(s: string)
    requires forall i :: 0 <= i < |s| ==> IsBreak(s[i]) ==> s[i] == '\n'
    ensures OneLiners(Split(s))
  {
    if s != "" {
      SplitOneLiners(s[1..]);
      var rest := Split(s[1..]);
      assert OneLiner(rest[0]);
    }
  }

  lemma OneLinerConcat(a: string, b: string)
    requires OneLiner(a) && OneLiner(b)
    ensures OneLiner(a + b)
  {
  }

  lemma {:induction false} BulletOneLiners(cs: seq<Criterion>)
    requires forall i :: 0 <= i < |cs| ==> OneLiner(cs[i].id) && OneLiner(cs[i].text)
    ensures OneLiners(BulletLines(cs))
  {
    if cs != [] {
      var c := cs[|cs| - 1];
      BulletOneLiners(cs[..|cs| - 1]);
      OneLinerConcat("- **", c.id);
      OneLinerConcat("- **" + c.id, ":** ");
      OneLinerConcat("- **" + c.id + ":** ", c.text);
    }
  }

  lemma FrontLines(s: Spec)
    requires OneLiner(s.title)
    requires forall i :: 0 <= i < |Strip(s.description)| ==>
      IsBreak(Strip(s.description)[i]) ==> Strip(s.description)[i] == '\n'
    ensures OneLiners(Front(s))
  {
    OneLinerConcat("# ", s.title);
    SplitOneLiners(Strip(s.description));
  }

  lemma FooterLines(s: Spec, format: string)
    requires OneLiner(format)
    requires forall i :: 0 <= i < |s.criteria| ==> OneLiner(s.criteria[i].id) && OneLiner(s.criteria[i].text)
    ensures OneLiners(Footer(s, format))
  {
    BulletOneLiners(s.criteria);
    ClosingOneLiner(format);
  }

  lemma ClosingOneLiner(format: string)
    requires OneLiner(format)
    ensures OneLiner(Closing(format))
  {
    OneLinerConcat("Ingested from a ", format);
    OneLinerConcat("Ingested from a " + format, " source by PFactory.");
    OneLinerConcat("> ", Origin(format));
  }

  lemma PrintedLinesAreLines(s: Spec, format: string)
    requires Printable(s, format)
    ensures OneLiners(Front(s) + Footer(s, format))
  {
    FrontLines(s);
    FooterLines(s, format);
  }

  lemma PrintIsItsLines(s: Spec, format: string)
    ensures ToMarkdown(s, format) == Join(Front(s) + Footer(s, format)) + "\n"
  {
    var head, tail := ["# " + s.title, ""], Footer(s, format);
    assert tail == ["## " + CRITERIA_TITLE, ""] + BulletLines(s.criteria) + ["", Closing(format)];
    if s.description == "" {
      assert Parts(s, format) == head + tail;
      assert Front(s) + tail == head + tail;
    } else {
      var d := Strip(s.description);
      assert Parts(s, format) == head + ([d] + ([""] + tail));
      assert Front(s) + tail == head + (Split(d) + ([""] + tail));
      JoinConcat([d], [""] + tail);
      JoinConcat(Split(d), [""] + tail);
      JoinSplit(d);
      JoinConcat(head, [d] + ([""] + tail));
      JoinConcat(head, Split(d) + ([""] + tail));
    }
  }

  lemma PrintIsRead(s: Spec, format: string)
    requires Printable(s, format)
    ensures SplitLines(ToMarkdown(s, format)) == Front(s) + Footer(s, format)
  {
    PrintIsItsLines(s, format);
    PrintedLinesAreLines(s, format);
    LinesReadBack(Front(s) + Footer(s, format));
  }

  lemma TitleStep(title: string)
    requires HasText(title)
    ensures ScanFrom(START, ["# " + title], false) == Scan(false, 0, true, false, [], [])
  {
    HeadingLine("#", title);
    assert "#" + " " + title == "# " + title;
    ScanOne(START, "# " + title, false);
  }

  lemma PlainRest(s: Spec)
    requires PlainDescription(s)
    ensures var rest := [""] + DescriptionLines(s.description);
      forall i :: 0 <= i < |rest| ==> !DeepCriteriaHeading(rest[i])
  {
    EmptyLine();
    var rest, split := [""] + DescriptionLines(s.description), Split(Strip(s.description));
    forall i | 0 <= i < |rest|
      ensures !DeepCriteriaHeading(rest[i])
    {
      assert rest[i] == "" || rest[i] == split[i - 1];
    }
  }

  /** Up to the criteria everything but the title is prose. */
  lemma FrontScan(s: Spec)
    requires HasText(s.title) && PlainDescription(s)
    ensures ScanFrom(START, Front(s), false) == Scan(false, 0, true, false, [], [""] + DescriptionLines(s.description))
  {
    var rest := [""] + DescriptionLines(s.description);
    assert Front(s) == ["# " + s.title] + rest;
    ScanConcat(START, ["# " + s.title], rest, false);
    TitleStep(s.title);
    PlainRest(s);
    ProseRun(Scan(false, 0, true, false, [], []), rest);
    assert [] + rest == rest;
  }

  /** From there on only the bullets count. */
  lemma FooterScan(t: Scan, heading: string, cs: seq<Criterion>, closing: string)
    requires CriteriaLine(heading)
    requires HeadingOf(closing) == None && BulletOf(closing) == None && Strip(closing) != ""
    ensures var u := ScanFrom(t, FooterUnder(heading, cs, closing), false);
      u.criteria == t.criteria + PrintedAll(cs) && u.prose == t.prose
  {
    var opening, bullets, last := [heading, ""], BulletLines(cs), ["", closing];
    assert FooterUnder(heading, cs, closing) == opening + (bullets + last);
    ScanConcat(t, opening, bullets + last, false);
    var inside := ScanFrom(t, opening, false);
    OpeningScan(t, heading);
    ScanConcat(inside, bullets, last, false);
    BulletRun(inside, cs);
    ClosingScan(ScanFrom(inside, bullets, false), closing);
  }

  lemma OpeningScan(t: Scan, heading: string)
    requires CriteriaLine(heading)
    ensures var u := ScanFrom(t, [heading, ""], false);
      u.inSection && u.criteria == t.criteria && u.prose == t.prose
  {
    assert [heading, ""] == [heading] + [""];
    ScanConcat(t, [heading], [""], false);
    ScanOne(t, heading, false);
    ScanOne(Step(t, heading, false), "", false);
    EmptyLine();
  }

  lemma ClosingLine(format: string)
    ensures HeadingOf(Closing(format)) == None && BulletOf(Closing(format)) == None && Strip(Closing(format)) != ""
  {
    QuoteLine(Origin(format));
  }

  lemma ClosingScan(t: Scan, line: string)
    requires t.inSection && HeadingOf(line) == None && BulletOf(line) == None && Strip(line) != ""
    ensures var u := ScanFrom(t, ["", line], false); u.criteria == t.criteria && u.prose == t.prose
  {
    assert ["", line] == [""] + [line];
    ScanConcat(t, [""], [line], false);
    ScanOne(t, "", false);
    EmptyLine();
    ScanOne(Step(t, "", false), line, false);
  }

  // ---- The round trip ----

  lemma HeadingIsThere(front: seq<string>, heading: string, cs: seq<Criterion>, closing: string)
    requires CriteriaLine(heading)
    ensures HasDeepHeading(front + FooterUnder(heading, cs, closing))
  {
    assert (front + FooterUnder(heading, cs, closing))[|front|] == heading;
    assert DeepCriteriaHeading(heading);
  }

  lemma PrintedIsClean(c: Criterion)
    ensures HasText(Printed(c)) && Strip(Printed(c)) == Printed(c)
  {
    BulletIsRead(c);
    StripTrimmed(Printed(c));
  }

  lemma {:induction false} KeepPrinted(cs: seq<Criterion>)
    ensures Keep(HasText, PrintedAll(cs)) == PrintedAll(cs)
  {
    if cs != [] {
      var front := PrintedAll(cs[..|cs| - 1]);
      KeepPrinted(cs[..|cs| - 1]);
      PrintedIsClean(cs[|cs| - 1]);
      assert (front + [Printed(cs[|cs| - 1])])[..|front|] == front;
    }
  }

  lemma PrintedNumbers(cs: seq<Criterion>, i: nat)
    requires i < |cs|
    ensures |Numbered(PrintedAll(cs))| == |cs|
    ensures Numbered(PrintedAll(cs))[i] == Criterion(CriterionId(i), Printed(cs[i]))
  {
    KeepPrinted(cs);
    PrintedIsClean(cs[i]);
    NumberedAt(PrintedAll(cs), i);
  }

  lemma DescriptionIsRead(description: string)
    ensures Strip(Join([""] + DescriptionLines(description))) == Strip(description)
  {
    var d := Strip(description);
    if description != "" {
      var ls := Split(d) + [""];
      JoinConcat(Split(d), [""]);
      JoinSplit(d);
      JoinConcat([""], ls);
      assert Join([""] + ls) == "\n" + d + "\n";
      AllSpaceOne();
      StripAround("\n", d, "\n");
      StripTrimmed(d);
    }
  }

  /** The round trip: the title, the description and the criteria come back, in
      order and complete; each criterion is the printed label and its text, and
      has a new id by its position. */
  lemma RoundTrip(s: Spec, format: string)
    requires Printable(s, format) && PlainDescription(s)
    ensures Parse(ToMarkdown(s, format), "").Ok?
    ensures var r := Parse(ToMarkdown(s, format), "").value;
      r.title == Strip(s.title) && r.description == Strip(s.description) && |r.criteria| == |s.criteria| &&
      forall i :: 0 <= i < |s.criteria| ==> r.criteria[i] == Criterion(CriterionId(i), Printed(s.criteria[i]))
  {
    var lines := Front(s) + Footer(s, format);
    PrintIsRead(s, format);
    CriteriaHeading();
    HeadingIsThere(Front(s), "## " + CRITERIA_TITLE, s.criteria, Closing(format));
    ScanConcat(START, Front(s), Footer(s, format), false);
    FrontScan(s);
    ClosingLine(format);
    FooterScan(ScanFrom(START, Front(s), false), "## " + CRITERIA_TITLE, s.criteria, Closing(format));
    assert ScanAll(lines).prose == [""] + DescriptionLines(s.description);
    assert ScanAll(lines).criteria == PrintedAll(s.criteria);
    forall i | 0 <= i < |s.criteria|
      ensures |Numbered(PrintedAll(s.criteria))| == |s.criteria|
      ensures Numbered(PrintedAll(s.criteria))[i] == Criterion(CriterionId(i), Printed(s.criteria[i]))
    {
      PrintedNumbers(s.criteria, i);
    }
    assert |Numbered(PrintedAll(s.criteria))| == |s.criteria| by {
      PrintedNumbers(s.criteria, 0);
    }
    DescriptionIsRead(s.description);
    TitleText(s.title);
    assert lines[0] == "# " + s.title;
  }

  // ---- When the description does not come back ----

  /** How much a list of lines takes when it is joined. */
  function Size(ls: seq<string>): nat {
    if ls == [] then 0 else Size(ls[..|ls| - 1]) + |ls[|ls| - 1]| + 1
  }

  lemma {:induction false} SizeConcat(a: seq<string>, b: seq<string>)
    ensures Size(a + b) == Size(a) + Size(b)
  {
    if b == [] {
      assert a + b == a;
    } else {
      assert (a + b)[..|a + b| - 1] == a + b[..|b| - 1];
      SizeConcat(a, b[..|b| - 1]);
    }
  }

  lemma {:induction false} JoinSize(ls: seq<string>)
    ensures |Join(ls)| == if ls == [] then 0 else Size(ls) - 1
  {
    if |ls| > 1 {
      JoinSize(ls[1..]);
      SizeConcat([ls[0]], ls[1..]);
      assert [ls[0]] + ls[1..] == ls && [ls[0]][..0] == [];
    } else if |ls| == 1 {
      assert ls[..0] == [];
    }
  }

  lemma StepSize(s: Scan, line: string, titleMayOpen: bool)
    ensures Size(Step(s, line, titleMayOpen).prose) <= Size(s.prose) + |line| + 1
  {
    assert (s.prose + [line])[..|s.prose|] == s.prose;
  }

  lemma OpenerStep(s: Scan, line: string, titleMayOpen: bool)
    requires DeepCriteriaHeading(line)
    ensures Step(s, line, titleMayOpen).prose == s.prose
  {
  }

  lemma {:induction false} ScanSize(s: Scan, ls: seq<string>, titleMayOpen: bool)
    ensures Size(ScanFrom(s, ls, titleMayOpen).prose) <= Size(s.prose) + Size(ls)
  {
    if ls != [] {
      var front := ls[..|ls| - 1];
      ScanSize(s, front, titleMayOpen);
      StepSize(ScanFrom(s, front, titleMayOpen), ls[|ls| - 1], titleMayOpen);
    }
  }

  /** A line that opens the section is missing from the prose. */
  lemma OpenerIsMissing(s: Scan, before: seq<string>, opener: string, after: seq<string>, titleMayOpen: bool)
    requires DeepCriteriaHeading(opener)
    ensures Size(ScanFrom(s, before + [opener] + after,
        titleMayOpen).prose) <= Size(s.prose) + Size(before) + Size(after)
  {
    var t := ScanFrom(s, before, titleMayOpen);
    ScanConcat(s, before + [opener], after, titleMayOpen);
    ScanConcat(s, before, [opener], titleMayOpen);
    ScanOne(t, opener, titleMayOpen);
    ScanSize(s, before, titleMayOpen);
    OpenerStep(t, opener, titleMayOpen);
    ScanSize(Step(t, opener, titleMayOpen), after, titleMayOpen);
  }

  lemma DeepHeadingIsLong(line: string)
    requires DeepCriteriaHeading(line)
    ensures |line| >= 2
  {
  }

  lemma StripShortens(s: string)
    ensures |Strip(s)| <= |s|
  {
  }

  lemma SizeThree(a: seq<string>, line: string, b: seq<string>)
    ensures Size(a + [line] + b) == Size(a) + |line| + 1 + Size(b)
  {
    SizeConcat(a + [line], b);
    SizeConcat(a, [line]);
    assert [line][..0] == [];
  }

  lemma SizeFramed(ls: seq<string>)
    ensures Size([""] + ls + [""]) == Size(ls) + 2
  {
    SizeConcat([""] + ls, [""]);
    SizeConcat([""], ls);
    assert [""][..0] == [];
  }

  lemma SizeAround(before: seq<string>, opener: string, after: seq<string>, d: string)
    requires before + [opener] + after == [""] + Split(d) + [""]
    ensures Size(before) + Size(after) + |opener| == |d| + 2
  {
    SizeThree(before, opener, after);
    SizeFramed(Split(d));
    JoinSplit(d);
    JoinSize(Split(d));
  }

  lemma FrontProse(s: Spec, k: nat)
    requires HasText(s.title) && s.description != ""
    requires k < |Split(Strip(s.description))| && DeepCriteriaHeading(Split(Strip(s.description))[k])
    ensures |Join(ScanFrom(START, Front(s), false).prose)| < |Strip(s.description)|
  {
    var d := Strip(s.description);
    var title, rest := ["# " + s.title], [""] + Split(d) + [""];
    var before, opener, after := rest[..k + 1], Split(d)[k], rest[k + 2..];
    assert Front(s) == title + rest;
    assert rest[k + 1] == opener && rest == before + [opener] + after;
    ScanConcat(START, title, rest, false);
    TitleStep(s.title);
    OpenerIsMissing(ScanFrom(START, title, false), before, opener, after, false);
    DeepHeadingIsLong(opener);
    SizeAround(before, opener, after, d);
    JoinSize(ScanFrom(START, Front(s), false).prose);
  }

  lemma EmptyIsPlain()
    ensures Split(Strip("")) == [""] && !DeepCriteriaHeading("")
  {
    EmptyLine();
  }

  /** A printed spec always parses, and its description comes back exactly when
      no line of it is a heading below the top level that names the criteria. */
  lemma RoundTripIff(s: Spec, format: string)
    requires Printable(s, format)
    ensures Parse(ToMarkdown(s, format), "").Ok?
    ensures Parse(ToMarkdown(s, format), "").value.description == Strip(s.description) <==> PlainDescription(s)
  {
    if PlainDescription(s) {
      RoundTrip(s, format);
    } else {
      var k :| 0 <= k < |Split(Strip(s.description))| && DeepCriteriaHeading(Split(Strip(s.description))[k]);
      EmptyIsPlain();
      var front := ScanFrom(START, Front(s), false);
      PrintIsRead(s, format);
      CriteriaHeading();
      HeadingIsThere(Front(s), "## " + CRITERIA_TITLE, s.criteria, Closing(format));
      ScanConcat(START, Front(s), Footer(s, format), false);
      ClosingLine(format);
      FooterScan(front, "## " + CRITERIA_TITLE, s.criteria, Closing(format));
      FrontProse(s, k);
      StripShortens(Join(front.prose));
      SomethingIsNumbered(front.criteria + PrintedAll(s.criteria), s.criteria[|s.criteria| - 1]);
    }
  }

  lemma SomethingIsNumbered(cs: seq<string>, c: Criterion)
    requires cs != [] && cs[|cs| - 1] == Printed(c)
    ensures Numbered(cs) != []
  {
    PrintedIsClean(c);
    assert Keep(HasText, cs) != [];
  }
}
