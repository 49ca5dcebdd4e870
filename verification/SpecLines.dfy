/** What `parse_markdown` does with each line, said without its state. */
module SpecLines {
  import opened Options
  import opened Text
  import opened SpecText
  import opened SpecSources

  /** The state after the first `n` lines. */
  function After(ls: seq<string>, n: nat, titleMayOpen: bool): Scan
    requires n <= |ls|
  {
    ScanFrom(START, ls[..n], titleMayOpen)
  }

  lemma AfterStep(ls: seq<string>, n: nat, titleMayOpen: bool)
    requires n < |ls|
    ensures After(ls, n + 1, titleMayOpen) == Step(After(ls, n, titleMayOpen), ls[n], titleMayOpen)
  {
    assert ls[..n + 1][..n] == ls[..n];
  }

  // ---- The section ----

  /** A heading that opens the criteria section, whatever came before. */
  predicate Opens(line: string, titleMayOpen: bool) {
    HeadingOf(line).Some? && NamesCriteria(HeadingOf(line).value.text) &&
        (HeadingOf(line).value.depth > 1 || titleMayOpen)
  }

  /** A heading strictly deeper than `depth`. */
  predicate Deeper(line: string, depth: nat) {
    HeadingOf(line).Some? && HeadingOf(line).value.depth > depth
  }

  /** Line `j` opened the section, and since then there were only deeper
      headings, none of which opened it anew. */
  ghost predicate OpenedAt(ls: seq<string>, j: int, n: nat, titleMayOpen: bool) {
    0 <= j < n <= |ls| && Opens(ls[j], titleMayOpen) &&
    forall k :: j < k < n && HeadingOf(ls[k]).Some? ==>
      !Opens(ls[k], titleMayOpen) && Deeper(ls[k], HeadingOf(ls[j]).value.depth)
  }

  /** The criteria section is open after `n` lines. */
  ghost predicate InSection(ls: seq<string>, n: nat, titleMayOpen: bool) {
    exists j :: OpenedAt(ls, j, n, titleMayOpen)
  }

  lemma StaysOpen(ls: seq<string>, j: int, n: nat, titleMayOpen: bool)
    requires n < |ls| && OpenedAt(ls, j, n, titleMayOpen)
    ensures OpenedAt(ls, j, n + 1, titleMayOpen) <==>
            (HeadingOf(ls[n]).Some? ==> !Opens(ls[n], titleMayOpen) && Deeper(ls[n], HeadingOf(ls[j]).value.depth))
  {
  }

  lemma OnlyFromBefore(ls: seq<string>, j: int, n: nat, titleMayOpen: bool)
    requires n < |ls| && OpenedAt(ls, j, n + 1, titleMayOpen)
    ensures j == n || OpenedAt(ls, j, n, titleMayOpen)
  {
  }

  /** What the state knows of the section after `n` lines. */
  ghost predicate SectionKnown(ls: seq<string>, n: nat, titleMayOpen: bool)
    requires n <= |ls|
  {
    var s := After(ls, n, titleMayOpen);
    (s.inSection <==> InSection(ls, n, titleMayOpen)) &&
    forall j :: OpenedAt(ls, j, n, titleMayOpen) ==> s.depth == HeadingOf(ls[j]).value.depth
  }

  lemma TextKeepsSection(s: Scan, line: string)
    ensures TextStep(s, line).inSection == s.inSection && TextStep(s, line).depth == s.depth
  {
  }

  lemma SectionAfterText(ls: seq<string>, n: nat, titleMayOpen: bool)
    requires n < |ls| && HeadingOf(ls[n]).None? && SectionKnown(ls, n, titleMayOpen)
    ensures SectionKnown(ls, n + 1, titleMayOpen)
  {
    AfterStep(ls, n, titleMayOpen);
    TextKeepsSection(After(ls, n, titleMayOpen), ls[n]);
    forall j | OpenedAt(ls, j, n, titleMayOpen)
      ensures OpenedAt(ls, j, n + 1, titleMayOpen)
    {
      StaysOpen(ls, j, n, titleMayOpen);
    }
    var m := n + 1;
    forall j | OpenedAt(ls, j, m, titleMayOpen)
      ensures OpenedAt(ls, j, n, titleMayOpen)
    {
      OnlyFromBefore(ls, j, n, titleMayOpen);
    }
  }

  lemma OpenerIsLast(ls: seq<string>, j: int, n: nat, titleMayOpen: bool)
    requires n < |ls| && Opens(ls[n], titleMayOpen) && OpenedAt(ls, j, n + 1, titleMayOpen)
    ensures j == n
  {
  }

  lemma SectionAfterOpener(ls: seq<string>, n: nat, titleMayOpen: bool)
    requires n < |ls| && Opens(ls[n], titleMayOpen)
    ensures SectionKnown(ls, n + 1, titleMayOpen)
  {
    AfterStep(ls, n, titleMayOpen);
    var m := n + 1;
    assert OpenedAt(ls, n, m, titleMayOpen);
    forall j | OpenedAt(ls, j, m, titleMayOpen)
      ensures j == n
    {
      OpenerIsLast(ls, j, n, titleMayOpen);
    }
  }

  lemma SectionAfterOther(ls: seq<string>, n: nat, titleMayOpen: bool)
    requires n < |ls| && HeadingOf(ls[n]).Some? && !Opens(ls[n], titleMayOpen) && SectionKnown(ls, n, titleMayOpen)
    ensures SectionKnown(ls, n + 1, titleMayOpen)
  {
    var s := After(ls, n, titleMayOpen);
    AfterStep(ls, n, titleMayOpen);
    if j :| OpenedAt(ls, j, n, titleMayOpen) {
      StaysOpen(ls, j, n, titleMayOpen);
    }
    var m := n + 1;
    forall j | OpenedAt(ls, j, m, titleMayOpen)
      ensures s.inSection && Deeper(ls[n], s.depth) && s.depth == HeadingOf(ls[j]).value.depth
    {
      OnlyFromBefore(ls, j, n, titleMayOpen);
      StaysOpen(ls, j, n, titleMayOpen);
    }
  }

  /** The section is open exactly when some heading opened it and only deeper
      headings have come since; so a strictly deeper one never closes it, and
      any other heading that does not name the criteria does. */
  lemma {:induction false} SectionIff(ls: seq<string>, n: nat, titleMayOpen: bool)
    requires n <= |ls|
    ensures SectionKnown(ls, n, titleMayOpen)
  {
    if n > 0 {
      SectionIff(ls, n - 1, titleMayOpen);
      if HeadingOf(ls[n - 1]).None? {
        SectionAfterText(ls, n - 1, titleMayOpen);
      } else if Opens(ls[n - 1], titleMayOpen) {
        SectionAfterOpener(ls, n - 1, titleMayOpen);
      } else {
        SectionAfterOther(ls, n - 1, titleMayOpen);
      }
    }
  }

  // ---- The prose ----

  predicate TopHeading(line: string) {
    HeadingOf(line).Some? && HeadingOf(line).value.depth == 1
  }

  /** The title: the first top-level heading. */
  ghost predicate IsTitle(ls: seq<string>, i: nat) {
    i < |ls| && TopHeading(ls[i]) && forall k :: 0 <= k < i ==> !TopHeading(ls[k])
  }

  /** A heading is prose unless it opens the section or is the title; any other
      line is prose unless it is in the section. */
  ghost predicate IsProse(ls: seq<string>, i: nat, titleMayOpen: bool)
    requires i < |ls|
  {
    if HeadingOf(ls[i]).Some? then !Opens(ls[i], titleMayOpen) && !IsTitle(ls, i)
    else !InSection(ls, i, titleMayOpen)
  }

  ghost function ProseLines(ls: seq<string>, n: nat, titleMayOpen: bool): seq<string>
    requires n <= |ls|
  {
    if n == 0 then []
    else ProseLines(ls, n - 1, titleMayOpen) + if IsProse(ls, n - 1, titleMayOpen) then [ls[n - 1]] else []
  }

  predicate TopHeadingBefore(ls: seq<string>, n: nat)
    requires n <= |ls|
  {
    exists k :: 0 <= k < n && TopHeading(ls[k])
  }

  lemma TitleStep(s: Scan, line: string, titleMayOpen: bool)
    ensures Step(s, line, titleMayOpen).titleSeen <==> s.titleSeen || TopHeading(line)
  {
  }

  lemma BeforeSnoc(ls: seq<string>, n: nat)
    requires n < |ls|
    ensures TopHeadingBefore(ls, n + 1) <==> TopHeadingBefore(ls, n) || TopHeading(ls[n])
  {
  }

  lemma {:induction false} TitleSeenIff(ls: seq<string>, n: nat, titleMayOpen: bool)
    requires n <= |ls|
    ensures After(ls, n, titleMayOpen).titleSeen <==> TopHeadingBefore(ls, n)
  {
    if n > 0 {
      TitleSeenIff(ls, n - 1, titleMayOpen);
      AfterStep(ls, n - 1, titleMayOpen);
      TitleStep(After(ls, n - 1, titleMayOpen), ls[n - 1], titleMayOpen);
      BeforeSnoc(ls, n - 1);
    }
  }

  lemma HeadingProse(s: Scan, line: string, titleMayOpen: bool)
    requires HeadingOf(line).Some? && (s.inSection ==> s.depth >= 1)
    ensures Step(s, line, titleMayOpen).prose ==
      if Opens(line, titleMayOpen) || (TopHeading(line) && !s.titleSeen) then s.prose else s.prose + [line]
  {
  }

  lemma SectionHasDepth(ls: seq<string>, n: nat, titleMayOpen: bool)
    requires n <= |ls|
    ensures After(ls, n, titleMayOpen).inSection ==> After(ls, n, titleMayOpen).depth >= 1
  {
    SectionIff(ls, n, titleMayOpen);
    if After(ls, n, titleMayOpen).inSection {
      var j :| OpenedAt(ls, j, n, titleMayOpen);
      assert HeadingOf(ls[j]).value.depth >= 1;
    }
  }

  lemma TextProse(s: Scan, line: string)
    ensures TextStep(s, line).prose == if s.inSection then s.prose else s.prose + [line]
  {
  }

  /** The description holds exactly the prose lines, all of them, in order. */
  lemma {:induction false} ProseIff(ls: seq<string>, n: nat, titleMayOpen: bool)
    requires n <= |ls|
    ensures After(ls, n, titleMayOpen).prose == ProseLines(ls, n, titleMayOpen)
  {
    if n > 0 {
      var i := n - 1;
      var s := After(ls, i, titleMayOpen);
      ProseIff(ls, i, titleMayOpen);
      AfterStep(ls, i, titleMayOpen);
      SectionIff(ls, i, titleMayOpen);
      if HeadingOf(ls[i]).Some? {
        SectionHasDepth(ls, i, titleMayOpen);
        TitleSeenIff(ls, i, titleMayOpen);
        HeadingProse(s, ls[i], titleMayOpen);
      } else {
        TextProse(s, ls[i]);
      }
    }
  }

  // ---- The criteria ----

  /** What a line is to the criteria. */
  datatype Kind = Outside | Bullet(text: string) | Blank | Wrapped(text: string)

  ghost function KindAt(ls: seq<string>, i: nat, titleMayOpen: bool): Kind
    requires i < |ls|
  {
    if HeadingOf(ls[i]).Some? || !InSection(ls, i, titleMayOpen) then Outside
    else if BulletOf(ls[i]).Some? then Bullet(BulletOf(ls[i]).value)
    else if Strip(ls[i]) == "" then Blank
    else Wrapped(Strip(ls[i]))
  }

  ghost function Kinds(ls: seq<string>, n: nat, titleMayOpen: bool): (ks: seq<Kind>)
    requires n <= |ls|
    ensures |ks| == n
  {
    if n == 0 then [] else Kinds(ls, n - 1, titleMayOpen) + [KindAt(ls, n - 1, titleMayOpen)]
  }

  /** The bullet at `b` is still taking up lines when line `n` is read: no other
      bullet and no blank section line has come since. */
  predicate TakesUp(ks: seq<Kind>, b: nat, n: nat) {
    b < n <= |ks| && ks[b].Bullet? && forall k :: b < k < n ==> !ks[k].Bullet? && !ks[k].Blank?
  }

  /** The text of the bullet at `b` after `n` lines: its own, and that of every
      wrapped line it takes up. */
  function Grown(ks: seq<Kind>, b: nat, n: nat): string
    requires b < n <= |ks| && ks[b].Bullet?
  {
    if n == b + 1 then ks[b].text
    else
      var text := Grown(ks, b, n - 1);
      if ks[n - 1].Wrapped? && TakesUp(ks, b, n - 1) then text + " " + ks[n - 1].text else text
  }

  /** The positions of the bullets among the first `n` lines. */
  function Bullets(ks: seq<Kind>, n: nat): (bs: seq<nat>)
    requires n <= |ks|
    ensures forall i :: 0 <= i < |bs| ==> bs[i] < n && ks[bs[i]].Bullet?
  {
    if n == 0 then []
    else
      var bs := Bullets(ks, n - 1);
      if ks[n - 1].Bullet? then bs + [n - 1] else bs
  }

  /** The criteria, and whether the last one is still taking up lines. */
  datatype Tally = Tally(criteria: seq<string>, continuing: bool)

  function TallyStep(t: Tally, kind: Kind): Tally {
    match kind
    case Outside => t
    case Bullet(text) => Tally(t.criteria + [text], true)
    case Blank => Tally(t.criteria, false)
    case Wrapped(text) =>
      if t.continuing && t.criteria != [] then
        var last := |t.criteria| - 1;
        t.(criteria := t.criteria[last := t.criteria[last] + " " + text])
      else t
  }

  function TallyOf(ks: seq<Kind>, n: nat): Tally
    requires n <= |ks|
  {
    if n == 0 then Tally([], false) else TallyStep(TallyOf(ks, n - 1), ks[n - 1])
  }

  lemma StepTallies(s: Scan, line: string, titleMayOpen: bool, kind: Kind)
    requires kind == if HeadingOf(line).Some? || !s.inSection then Outside
                     else if BulletOf(line).Some? then Bullet(BulletOf(line).value)
                     else if Strip(line) == "" then Blank
                     else Wrapped(Strip(line))
    ensures var u := Step(s, line, titleMayOpen);
      Tally(u.criteria, u.continuing) == TallyStep(Tally(s.criteria, s.continuing), kind)
  {
  }

  lemma {:induction false} TallyOfPrefix(ks: seq<Kind>, ks': seq<Kind>, n: nat)
    requires n <= |ks| && n <= |ks'| && ks[..n] == ks'[..n]
    ensures TallyOf(ks, n) == TallyOf(ks', n)
  {
    if n > 0 {
      assert ks[..n][..n - 1] == ks[..n - 1] && ks'[..n][..n - 1] == ks'[..n - 1];
      assert ks[..n][n - 1] == ks'[..n][n - 1];
      TallyOfPrefix(ks, ks', n - 1);
    }
  }

  lemma TallySnoc(front: seq<Kind>, kind: Kind)
    ensures TallyOf(front + [kind], |front| + 1) == TallyStep(TallyOf(front, |front|), kind)
  {
    TallyOfPrefix(front, front + [kind], |front|);
  }

  lemma {:induction false} StateTallies(ls: seq<string>, n: nat, titleMayOpen: bool)
    requires n <= |ls|
    ensures var s := After(ls, n, titleMayOpen);
      Tally(s.criteria, s.continuing) == TallyOf(Kinds(ls, n, titleMayOpen), n)
  {
    if n > 0 {
      var i := n - 1;
      var kind := KindAt(ls, i, titleMayOpen);
      StateTallies(ls, i, titleMayOpen);
      SectionIff(ls, i, titleMayOpen);
      AfterStep(ls, i, titleMayOpen);
      StepTallies(After(ls, i, titleMayOpen), ls[i], titleMayOpen, kind);
      TallySnoc(Kinds(ls, i, titleMayOpen), kind);
    }
  }

  lemma {:induction false} EveryBulletIsListed(ks: seq<Kind>, n: nat, k: nat)
    requires k < n <= |ks| && ks[k].Bullet?
    ensures k in Bullets(ks, n)
  {
    if k < n - 1 {
      EveryBulletIsListed(ks, n - 1, k);
    }
  }

  /** The bullets come in the order of their lines. */
  lemma {:induction false} BulletsInOrder(ks: seq<Kind>, n: nat, i: nat, j: nat)
    requires n <= |ks| && i < j < |Bullets(ks, n)|
    ensures Bullets(ks, n)[i] < Bullets(ks, n)[j]
  {
    var bs := Bullets(ks, n - 1);
    if j < |bs| {
      BulletsInOrder(ks, n - 1, i, j);
    }
  }

  lemma OnlyLastTakesUp(ks: seq<Kind>, n: nat, i: nat)
    requires n <= |ks| && i + 1 < |Bullets(ks, n)|
    ensures !TakesUp(ks, Bullets(ks, n)[i], n)
  {
    var bs := Bullets(ks, n);
    BulletsInOrder(ks, n, i, i + 1);
    assert bs[i] < bs[i + 1] < n && ks[bs[i + 1]].Bullet?;
  }

  lemma TakesUpStep(ks: seq<Kind>, b: nat, n: nat)
    requires b < n < |ks|
    ensures TakesUp(ks, b, n + 1) <==> TakesUp(ks, b, n) && !ks[n].Bullet? && !ks[n].Blank?
  {
  }

  /** One criterion for each bullet, and the last one is open while it takes up
      lines. */
  lemma {:induction false} TallyCount(ks: seq<Kind>, n: nat)
    requires n <= |ks|
    ensures var t, bs := TallyOf(ks, n), Bullets(ks, n);
      |t.criteria| == |bs| && (t.continuing <==> bs != [] && TakesUp(ks, bs[|bs| - 1], n))
  {
    if n > 0 {
      var bs := Bullets(ks, n - 1);
      TallyCount(ks, n - 1);
      if ks[n - 1].Bullet? {
        assert TakesUp(ks, n - 1, n);
      } else if bs != [] {
        TakesUpStep(ks, bs[|bs| - 1], n - 1);
      }
    }
  }

  /** Each criterion is its bullet's text with what it takes up. */
  lemma {:induction false} TallyText(ks: seq<Kind>, n: nat, i: nat)
    requires n <= |ks| && i < |Bullets(ks, n)| == |TallyOf(ks, n).criteria|
    ensures TallyOf(ks, n).criteria[i] == Grown(ks, Bullets(ks, n)[i], n)
  {
    var bs := Bullets(ks, n - 1);
    TallyCount(ks, n - 1);
    if i < |bs| {
      TallyText(ks, n - 1, i);
      if i + 1 < |bs| {
        OnlyLastTakesUp(ks, n - 1, i);
      }
    }
  }

  /** The criteria found under the headings, word for word: one for each bullet in
      the section, in order, with the wrapped lines it takes up. A line of
      section text goes to the latest bullet exactly when no blank section line
      came since; a heading or a line outside the section does not stop it. */
  lemma CriteriaIff(ls: seq<string>, titleMayOpen: bool)
    ensures var ks := Kinds(ls, |ls|, titleMayOpen); var bs := Bullets(ks, |ls|);
      var criteria := After(ls, |ls|, titleMayOpen).criteria;
      |criteria| == |bs| && forall i :: 0 <= i < |bs| ==> criteria[i] == Grown(ks, bs[i], |ls|)
  {
    var ks := Kinds(ls, |ls|, titleMayOpen);
    StateTallies(ls, |ls|, titleMayOpen);
    TallyCount(ks, |ls|);
    forall i | 0 <= i < |Bullets(ks, |ls|)|
      ensures TallyOf(ks, |ls|).criteria[i] == Grown(ks, Bullets(ks, |ls|)[i], |ls|)
    {
      TallyText(ks, |ls|, i);
    }
  }

  // ---- Wrapped lines and headings ----

  /** Some bullet before line `h` takes up what is read as line `k`. */
  ghost predicate TakenFromBefore(ks: seq<Kind>, h: nat, k: nat) {
    exists b :: 0 <= b < h && TakesUp(ks, b, k)
  }

  /** A line of section text under a heading goes to a bullet from before that
      heading exactly when such a bullet was still taking up lines at the heading
      and neither a bullet nor a blank section line has come since. So it stays
      under its own heading exactly when one of them has come, or nothing was
      open. */
  lemma TakenFromBeforeIff(ks: seq<Kind>, h: nat, k: nat)
    requires h <= k <= |ks|
    ensures TakenFromBefore(ks, h, k) <==>
            TakenFromBefore(ks, h, h) && forall j :: h <= j < k ==> !ks[j].Bullet? && !ks[j].Blank?
  {
    if TakenFromBefore(ks, h, k) {
      var b :| 0 <= b < h && TakesUp(ks, b, k);
      assert TakesUp(ks, b, h);
    }
    if TakenFromBefore(ks, h, h) && forall j :: h <= j < k ==> !ks[j].Bullet? && !ks[j].Blank? {
      var b :| 0 <= b < h && TakesUp(ks, b, h);
      assert TakesUp(ks, b, k);
    }
  }

  // ---- The whole document ----

  /** Text with nothing around it to strip: what every criterion is. */
  predicate Solid(s: string) {
    s != "" && Trimmed(s)
  }

  predicate AllSolid(cs: seq<string>) {
    forall i :: 0 <= i < |cs| ==> Solid(cs[i])
  }

  lemma JoinedSolid(a: string, b: string)
    requires Solid(a) && Solid(b)
    ensures Solid(a + " " + b)
  {
    var s := a + " " + b;
    assert s[0] == a[0] && s[|s| - 1] == b[|b| - 1];
  }

  lemma StepSolid(s: Scan, line: string, titleMayOpen: bool)
    requires AllSolid(s.criteria)
    ensures AllSolid(Step(s, line, titleMayOpen).criteria)
  {
    if HeadingOf(line).None? && s.inSection && s.continuing && s.criteria != [] && Strip(line) != "" {
      JoinedSolid(s.criteria[|s.criteria| - 1], Strip(line));
    }
  }

  lemma {:induction false} ScanSolid(ls: seq<string>, titleMayOpen: bool)
    ensures AllSolid(ScanFrom(START, ls, titleMayOpen).criteria)
  {
    if ls != [] {
      ScanSolid(ls[..|ls| - 1], titleMayOpen);
      StepSolid(ScanFrom(START, ls[..|ls| - 1], titleMayOpen), ls[|ls| - 1], titleMayOpen);
    }
  }

  lemma {:induction false} InlineFromSolid(s: string, bounded: bool)
    ensures InlineFrom(s, bounded).Some? ==> Solid(InlineFrom(s, bounded).value)
  {
    if |s| >= 2 {
      InlineFromSolid(s[1..], !IsWordChar(s[0]));
    }
  }

  lemma {:induction false} InlineSolid(ls: seq<string>)
    ensures AllSolid(InlineCriteria(ls))
  {
    if ls != [] {
      InlineSolid(ls[..|ls| - 1]);
      InlineFromSolid(ls[|ls| - 1], true);
    }
  }

  lemma {:induction false} KeepsSolid(cs: seq<string>)
    requires AllSolid(cs)
    ensures Keep(HasText, cs) == cs
  {
    if cs != [] {
      KeepsSolid(cs[..|cs| - 1]);
      StripTrimmed(cs[|cs| - 1]);
    }
  }

  /** Numbering changes no text and drops nothing. */
  lemma NumberedSolid(cs: seq<string>)
    requires AllSolid(cs)
    ensures NumberedAs(Numbered(cs), cs)
  {
    KeepsSolid(cs);
    if cs == [] {
      assert Numbered(cs) == [];
    }
    forall i | 0 <= i < |cs|
      ensures |Numbered(cs)| == |cs| && Numbered(cs)[i] == Criterion(CriterionId(i), cs[i])
    {
      StripTrimmed(cs[i]);
      NumberedAt(cs, i);
    }
  }

  predicate NumberedAs(criteria: seq<Criterion>, texts: seq<string>) {
    |criteria| == |texts| && forall i :: 0 <= i < |texts| ==> criteria[i] == Criterion(CriterionId(i), texts[i])
  }

  /** The texts of the bullets, each with what it takes up. */
  function GrownAll(ks: seq<Kind>): (texts: seq<string>)
    ensures |texts| == |Bullets(ks, |ks|)|
    ensures forall i :: 0 <= i < |texts| ==> texts[i] == Grown(ks, Bullets(ks, |ks|)[i], |ks|)
  {
    var bs := Bullets(ks, |ks|);
    seq(|bs|, i requires 0 <= i < |bs| => Grown(ks, bs[i], |ks|))
  }

  /** What a document says its criteria are: the grown bullets, or without any
      bullet the inline markers. */
  ghost function CriteriaTexts(ls: seq<string>): seq<string> {
    var texts := GrownAll(Kinds(ls, |ls|, !HasDeepHeading(ls)));
    if texts != [] then texts else InlineCriteria(ls)
  }

  lemma CriteriaAre(ls: seq<string>)
    ensures CriteriaOf(ls) == CriteriaTexts(ls) && AllSolid(CriteriaOf(ls))
  {
    CriteriaIff(ls, !HasDeepHeading(ls));
    assert ls[..|ls|] == ls;
    var texts := GrownAll(Kinds(ls, |ls|, !HasDeepHeading(ls)));
    assert ScanAll(ls).criteria == texts;
    ScanSolid(ls, !HasDeepHeading(ls));
    InlineSolid(ls);
  }

  /** The whole document: it parses exactly when it has a criterion, the
      description is its prose, and the criteria are its bullets with the lines
      they take up, or else its inline markers, word for word and numbered from
      one. */
  lemma ParseAccounts(text: string, title: string)
    ensures var ls := SplitLines(text); Parse(text, title).Ok? <==> CriteriaTexts(ls) != []
    ensures var ls := SplitLines(text); Parse(text, title).Ok? ==>
      var r := Parse(text, title).value;
      r.description == Strip(Join(ProseLines(ls, |ls|, !HasDeepHeading(ls)))) &&
      NumberedAs(r.criteria, CriteriaTexts(ls))
  {
    var ls := SplitLines(text);
    assert ls[..|ls|] == ls;
    ProseIff(ls, |ls|, !HasDeepHeading(ls));
    CriteriaAre(ls);
    NumberedSolid(CriteriaOf(ls));
  }
}
