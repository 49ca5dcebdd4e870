/** `parse_markdown` and the renderer whose output it must read back. */
module SpecSources {
  import opened Options
  import opened Text
  import opened SpecText

  datatype Spec = Spec(title: string, description: string, criteria: seq<Criterion>)

  // ---- The scan ----

  /** The variables of the loop in `parse_markdown`. */
  datatype Scan = Scan(
    inSection: bool,
    depth: nat,
    titleSeen: bool,
    continuing: bool,
    criteria: seq<string>,
    prose: seq<string>)

  const START := Scan(false, 0, false, false, [], [])

  datatype SectionState = SectionState(inSection: bool, depth: nat, isSubheading: bool)

  /** `_ac_section_state` */
  function SectionAfter(h: Heading, inSection: bool, depth: nat, titleMayOpen: bool): SectionState {
    if NamesCriteria(h.text) && (h.depth > 1 || titleMayOpen) then SectionState(true, h.depth, false)
    else if inSection && h.depth > depth then SectionState(true, depth, true)
    else SectionState(false, depth, false)
  }

  function HeadingStep(s: Scan, line: string, h: Heading, titleMayOpen: bool): Scan {
    var after := SectionAfter(h, s.inSection, s.depth, titleMayOpen);
    var isTitle := !s.titleSeen && h.depth == 1;
    var toProse := after.isSubheading || (!after.inSection && !isTitle);
    Scan(after.inSection, after.depth, s.titleSeen || isTitle, s.continuing, s.criteria,
         if toProse then s.prose + [line] else s.prose)
  }

  function TextStep(s: Scan, line: string): Scan {
    if !s.inSection then s.(prose := s.prose + [line])
    else if BulletOf(line).Some? then s.(criteria := s.criteria + [BulletOf(line).value], continuing := true)
    else if Strip(line) == "" then s.(continuing := false)
    else if s.continuing && s.criteria != [] then
      var last := |s.criteria| - 1;
      s.(criteria := s.criteria[last := s.criteria[last] + " " + Strip(line)])
    else s
  }

  function Step(s: Scan, line: string, titleMayOpen: bool): Scan {
    match HeadingOf(line)
    case Some(h) => HeadingStep(s, line, h, titleMayOpen)
    case None => TextStep(s, line)
  }

  function ScanFrom(s: Scan, lines: seq<string>, titleMayOpen: bool): Scan {
    if lines == [] then s
    else Step(ScanFrom(s, lines[..|lines| - 1], titleMayOpen), lines[|lines| - 1], titleMayOpen)
  }

  /** A heading below the top level that names the criteria. */
  predicate DeepCriteriaHeading(line: string) {
    var h := HeadingOf(line);
    h.Some? && h.value.depth > 1 && NamesCriteria(h.value.text)
  }

  predicate HasDeepHeading(lines: seq<string>) {
    exists i :: 0 <= i < |lines| && DeepCriteriaHeading(lines[i])
  }

  function InlineCriteria(lines: seq<string>): seq<string> {
    if lines == [] then []
    else
      var found := InlineOf(lines[|lines| - 1]);
      InlineCriteria(lines[..|lines| - 1]) + if found.Some? then [found.value] else []
  }

  function ScanAll(lines: seq<string>): Scan {
    ScanFrom(START, lines, !HasDeepHeading(lines))
  }

  /** The criteria of a document: its bullets, or else its inline markers. */
  function CriteriaOf(lines: seq<string>): seq<string> {
    var bullets := ScanAll(lines).criteria;
    if bullets != [] then bullets else InlineCriteria(lines)
  }

  function Parse(text: string, title: string): Result<Spec> {
    var lines := SplitLines(text);
    var acs := Numbered(CriteriaOf(lines));
    if acs == [] then Raised("no acceptance criteria found")
    else
      Ok(Spec(if title != "" then title else FirstH1(lines, "Untitled spec"), Strip(Join(ScanAll(lines).prose)), acs))
  }

  // ---- The method ----

  method FindDeepHeading(lines: seq<string>) returns (found: bool)
    ensures found == HasDeepHeading(lines)
  {
    found := false;
    for i := 0 to |lines|
      invariant forall k :: 0 <= k < i ==> !DeepCriteriaHeading(lines[k])
    {
      if DeepCriteriaHeading(lines[i]) {
        return true;
      }
    }
  }

  /** The main loop. */
  method ScanLines(lines: seq<string>, titleMayOpen: bool) returns (criteria: seq<string>, prose: seq<string>)
    ensures var s := ScanFrom(START, lines, titleMayOpen); criteria == s.criteria && prose == s.prose
  {
    criteria, prose := [], [];
    var inSection, sectionDepth, titleSeen, continuing := false, 0, false, false;
    for i := 0 to |lines|
      invariant Scan(inSection, sectionDepth, titleSeen, continuing, criteria, prose) ==
                ScanFrom(START, lines[..i], titleMayOpen)
    {
      var line := lines[i];
      assert lines[..i + 1][..i] == lines[..i];
      var h := HeadingOf(line);
      if h.Some? {
        var after := SectionAfter(h.value, inSection, sectionDepth, titleMayOpen);
        inSection, sectionDepth := after.inSection, after.depth;
        var isTitleHeading := !titleSeen && h.value.depth == 1;
        titleSeen := titleSeen || isTitleHeading;
        if after.isSubheading || (!inSection && !isTitleHeading) {
          prose := prose + [line];
        }
      } else if inSection {
        var b := BulletOf(line);
        if b.Some? {
          criteria := criteria + [b.value];
          continuing := true;
        } else if Strip(line) == "" {
          continuing := false;
        } else if continuing && criteria != [] {
          var last := |criteria| - 1;
          criteria := criteria[last := criteria[last] + " " + Strip(line)];
        }
      } else {
        prose := prose + [line];
      }
    }
    assert lines[..|lines|] == lines;
  }

  method ParseMarkdown(text: string, title: string) returns (r: Result<Spec>)
    ensures r == Parse(text, title)
  {
    var lines := SplitLines(text);
    var specTitle := if title != "" then title else FirstH1(lines, "Untitled spec");
    var deeper := FindDeepHeading(lines);
    var criteria, prose := ScanLines(lines, !deeper);
    if criteria == [] {
      for i := 0 to |lines|
        invariant criteria == InlineCriteria(lines[..i])
      {
        assert lines[..i + 1][..i] == lines[..i];
        var m := InlineOf(lines[i]);
        if m.Some? {
          criteria := criteria + [m.value];
        }
      }
      assert lines[..|lines|] == lines;
    }
    var acs := Numbered(criteria);
    if acs == [] {
      return Raised("no acceptance criteria found");
    }
    r := Ok(Spec(specTitle, Strip(Join(prose)), acs));
  }

  // ---- The renderer ----

  function BulletLine(c: Criterion): string {
    "- **" + c.id + ":** " + c.text
  }

  function BulletLines(cs: seq<Criterion>): seq<string> {
    if cs == [] then [] else BulletLines(cs[..|cs| - 1]) + [BulletLine(cs[|cs| - 1])]
  }

  const CRITERIA_TITLE := "Acceptance Criteria"

  /** The elements `to_markdown` joins; the description is one of them, however
      many lines it has. */
  function Parts(s: Spec, format: string): seq<string> {
    ["# " + s.title, ""] +
    (if s.description != "" then [Strip(s.description), ""] else []) +
    ["## " + CRITERIA_TITLE, ""] + BulletLines(s.criteria) +
    ["", "> " + Origin(format)]
  }

  function Origin(format: string): string {
    "Ingested from a " + format + " source by PFactory."
  }

  function ToMarkdown(s: Spec, format: string): string {
    Join(Parts(s, format)) + "\n"
  }

  method RenderMarkdown(s: Spec, format: string) returns (text: string)
    ensures text == ToMarkdown(s, format)
  {
    var lines := ["# " + s.title, ""];
    if s.description != "" {
      lines := lines + [Strip(s.description), ""];
    }
    lines := lines + ["## " + CRITERIA_TITLE, ""];
    ghost var head := lines;
    for i := 0 to |s.criteria|
      invariant lines == head + BulletLines(s.criteria[..i])
    {
      assert s.criteria[..i + 1][..i] == s.criteria[..i];
      lines := lines + ["- **" + s.criteria[i].id + ":** " + s.criteria[i].text];
    }
    assert s.criteria[..|s.criteria|] == s.criteria;
    lines := lines + [""];
    lines := lines + ["> " + Origin(format)];
    assert lines == Parts(s, format);
    text := Join(lines) + "\n";
  }
}
