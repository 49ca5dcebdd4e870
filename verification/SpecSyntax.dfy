/** What counts as a heading, as a bullet and as the name of the criteria section. */
module SpecSyntax {
  import opened Options
  import opened Text
  import opened SpecText

  // The line-level functions, said of how a line is put together instead of how it
  // is scanned.

  ghost predicate Occurs(part: string, s: string) {
    exists i :: 0 <= i <= |s| && StartsWith(s[i..], part)
  }

  lemma {:induction false} ContainsIff(s: string, part: string)
    ensures Contains(s, part) <==> Occurs(part, s)
  {
    assert s[0..] == s;
    if s != "" {
      ContainsIff(s[1..], part);
      if i :| 0 <= i <= |s[1..]| && StartsWith(s[1..][i..], part) {
        assert s[i + 1..] == s[1..][i..];
      }
      if i :| 1 <= i <= |s| && StartsWith(s[i..], part) {
        assert s[1..][i - 1..] == s[i..];
      }
    }
  }

  /** A longer word cannot occur where one that it begins with does not. */
  lemma OccursLonger(word: string, longer: string, s: string)
    requires StartsWith(longer, word)
    ensures Occurs(longer, s) ==> Occurs(word, s)
  {
    if i :| 0 <= i <= |s| && StartsWith(s[i..], longer) {
      assert s[i..][..|word|] == s[i..][..|longer|][..|word|] == word;
    }
  }

  lemma OneOfThree(longer: string, word: string, other: string, s: string)
    requires StartsWith(longer, word)
    ensures Contains(s, longer) || Contains(s, word) || Contains(s, other) <==> Occurs(word, s) || Occurs(other, s)
  {
    ContainsIff(s, longer);
    ContainsIff(s, word);
    ContainsIff(s, other);
    OccursLonger(word, longer, s);
  }

  /** A heading opens the criteria section exactly when "acceptance" or
      "requirements" stands somewhere in it, in whatever case. */
  lemma NamesIff(text: string)
    ensures NamesCriteria(text) <==> Occurs("acceptance", Lower(text)) || Occurs("requirements", Lower(text))
  {
    assert StartsWith("acceptance criteria", "acceptance");
    OneOfThree("acceptance criteria", "acceptance", "requirements", Lower(text));
  }

  // ---- A marker, white space, and some text ----

  /** The line is white space, then `marker`, then white space and a text. */
  ghost predicate Marked(line: string, before: string, marker: string, rest: string, text: string) {
    line == before + marker + rest && AllSpace(before) && rest != "" && IsSpace(rest[0]) &&
    Strip(rest) == text && text != ""
  }

  lemma MarkedParts(line: string, before: string, marker: string, rest: string, text: string)
    requires Marked(line, before, marker, rest, text) && marker != "" && !IsSpace(marker[0])
    ensures LStrip(line) == marker + rest && AfterMarker(marker + rest, |marker|) == Some(text)
  {
    assert line == before + (marker + rest);
    LStripBefore(before, marker + rest);
    assert (marker + rest)[|marker|..] == rest;
  }

  lemma PartsMarked(line: string, n: nat, text: string) returns (before: string, rest: string)
    requires AfterMarker(LStrip(line), n) == Some(text)
    ensures Marked(line, before, LStrip(line)[..n], rest, text)
    ensures LStrip(line) == LStrip(line)[..n] + rest
  {
    var s := LStrip(line);
    LStripped(line);
    before, rest := line[..|line| - |s|], s[n..];
    assert line == before + s && s == s[..n] + rest;
    assert line == before + s[..n] + rest;
  }

  // ---- Bullets ----

  /** A dash, an asterisk or a plus; or a number and a dot or a bracket. */
  ghost predicate BulletMarker(m: string) {
    m == "-" || m == "*" || m == "+" ||
    (|m| >= 2 && AllDigits(m[..|m| - 1]) && (m[|m| - 1] == '.' || m[|m| - 1] == ')'))
  }

  lemma {:induction false} DigitsCounted(s: string)
    ensures AllDigits(s[..DigitLen(s)])
  {
    if s != "" && IsDigit(s[0]) {
      DigitsCounted(s[1..]);
      var d := DigitLen(s[1..]);
      forall i | 0 <= i < d + 1
        ensures IsDigit(s[i])
      {
        assert i > 0 ==> s[i] == s[1..][..d][i - 1];
      }
    }
  }

  lemma MarkerLenIff(m: string, rest: string)
    requires m != ""
    ensures MarkerLen(m + rest) == |m| <==> BulletMarker(m)
  {
    var s := m + rest;
    if BulletMarker(m) && |m| >= 2 {
      var digits, tail := m[..|m| - 1], [m[|m| - 1]] + rest;
      assert s == digits + tail && s[0] == digits[0];
      DigitLenOf(digits, tail);
    }
    if MarkerLen(s) == |m| {
      if |m| == 1 {
        assert s[0] == m[0];
      } else {
        DigitsCounted(s);
        assert s[..|m| - 1] == m[..|m| - 1];
      }
    }
  }

  ghost predicate IsBullet(line: string, text: string) {
    exists before, marker, rest :: BulletMarker(marker) && Marked(line, before, marker, rest, text)
  }

  lemma BulletTakenApart(line: string, text: string)
    requires BulletOf(line) == Some(text)
    ensures IsBullet(line, text)
  {
    var s := LStrip(line);
    var n := MarkerLen(s);
    var before, rest := PartsMarked(line, n, text);
    MarkerLenIff(s[..n], rest);
    assert BulletMarker(s[..n]) && Marked(line, before, s[..n], rest, text);
  }

  lemma BulletPutTogether(line: string, before: string, marker: string, rest: string, text: string)
    requires BulletMarker(marker) && Marked(line, before, marker, rest, text)
    ensures BulletOf(line) == Some(text)
  {
    MarkedParts(line, before, marker, rest, text);
    MarkerLenIff(marker, rest);
  }

  /** A line is a bullet with this text exactly when it is indented by white space,
      begins with a dash, an asterisk, a plus or a number with a dot or a bracket,
      and goes on with white space and the text. */
  lemma BulletIff(line: string, text: string)
    ensures BulletOf(line) == Some(text) <==> IsBullet(line, text)
  {
    if BulletOf(line) == Some(text) {
      BulletTakenApart(line, text);
    }
    if IsBullet(line, text) {
      var before, marker, rest :| BulletMarker(marker) && Marked(line, before, marker, rest, text);
      BulletPutTogether(line, before, marker, rest, text);
    }
  }

  // ---- Headings ----

  ghost predicate Hashes(m: string) {
    1 <= |m| <= 6 && forall i :: 0 <= i < |m| ==> m[i] == '#'
  }

  lemma {:induction false} HashesCounted(s: string, n: nat)
    requires n <= |s| && (n == |s| || s[n] != '#')
    ensures HashLen(s) == n <==> forall i :: 0 <= i < n ==> s[i] == '#'
  {
    if n > 0 {
      HashesCounted(s[1..], n - 1);
      if forall i :: 0 <= i < n - 1 ==> s[1..][i] == '#' {
        assert forall i :: 1 <= i < n ==> s[i] == s[1..][i - 1];
      } else {
        assert forall i :: 0 <= i < n - 1 ==> s[1..][i] == s[i + 1];
      }
    }
  }

  ghost predicate IsHeading(line: string, depth: nat, text: string) {
    exists before, marker, rest :: Hashes(marker) && |marker| == depth && Marked(line, before, marker, rest, text)
  }

  /** A line is a heading of this depth and text exactly when it is indented by white
      space, begins with one to six hashes, and goes on with white space and the
      text. */
  lemma HeadingIff(line: string, depth: nat, text: string)
    ensures HeadingOf(line) == Some(Heading(depth, text)) <==> IsHeading(line, depth, text)
  {
    var s := LStrip(line);
    if HeadingOf(line) == Some(Heading(depth, text)) {
      var before, rest := PartsMarked(line, depth, text);
      assert s[depth] == rest[0];
      HashesCounted(s, depth);
      assert Hashes(s[..depth]) && |s[..depth]| == depth && Marked(line, before, s[..depth], rest, text);
    }
    if IsHeading(line, depth, text) {
      var before, marker, rest :| Hashes(marker) && |marker| == depth && Marked(line, before, marker, rest, text);
      MarkedParts(line, before, marker, rest, text);
      assert s[depth] == rest[0];
      HashesCounted(s, depth);
    }
  }

  // ---- Inline criteria ----

  /** The two letters stand at `i`, where a word may begin, and a number and a text
      follow. */
  ghost predicate InlineAt(line: string, i: nat) {
    i + 2 <= |line| && (i == 0 || !IsWordChar(line[i - 1])) &&
    (line[i] == 'A' || line[i] == 'a') && (line[i + 1] == 'C' || line[i + 1] == 'c') &&
    AfterAc(line[i + 2..]).Some?
  }

  ghost predicate NoInlineBetween(line: string, from: nat, to: nat) {
    forall i :: from <= i < to ==> !InlineAt(line, i)
  }

  lemma {:induction false} InlineFromIs(line: string, from: nat, i: nat)
    requires from <= i <= |line| && NoInlineBetween(line, from, i)
    ensures var r := InlineFrom(line[from..], from == 0 || !IsWordChar(line[from - 1]));
      if InlineAt(line, i) then r == AfterAc(line[i + 2..]) else i == |line| ==> r == None
    decreases |line| - from
  {
    var s := line[from..];
    if |s| >= 2 {
      assert s[2..] == line[from + 2..];
      if from < i {
        assert !InlineAt(line, from) && s[1..] == line[from + 1..];
        InlineFromIs(line, from + 1, i);
      }
    }
  }

  /** A line without an inline criterion anywhere has none, and otherwise it has the
      leftmost one. */
  lemma InlineIs(line: string, i: nat)
    requires i <= |line| && NoInlineBetween(line, 0, i)
    ensures InlineAt(line, i) ==> InlineOf(line) == AfterAc(line[i + 2..])
    ensures i == |line| ==> InlineOf(line) == None
  {
    assert line[0..] == line;
    InlineFromIs(line, 0, i);
  }

  /** White space, perhaps a hash and more of it, a number, white space, then a colon,
      a dot or a dash, and a text. */
  ghost predicate NumberAndText(s: string, lead: string, digits: string, gap: string, sep: char, rest: string,
                                text: string) {
    s == lead + digits + gap + [sep] + rest && Lead(lead) && digits != "" && AllDigits(digits) && AllSpace(gap) &&
    (sep == ':' || sep == '.' || sep == '-') && Strip(rest) == text && text != ""
  }

  ghost predicate Lead(lead: string) {
    AllSpace(lead) || exists a, b :: HashLead(lead, a, b)
  }

  ghost predicate HashLead(lead: string, a: string, b: string) {
    lead == a + "#" + b && AllSpace(a) && AllSpace(b)
  }

  function AfterLead(s: string): string {
    var a := LStrip(s);
    LStrip(if a != "" && a[0] == '#' then a[1..] else a)
  }

  lemma SpaceLeadRead(lead: string, s: string)
    requires AllSpace(lead) && s != "" && IsDigit(s[0])
    ensures AfterLead(lead + s) == s
  {
    LStripBefore(lead, s);
    LStripBefore("", s);
    assert "" + s == s;
  }

  lemma HashLeadRead(a: string, b: string, s: string)
    requires AllSpace(a) && AllSpace(b) && s != "" && IsDigit(s[0])
    ensures AfterLead(a + "#" + b + s) == s
  {
    var tail := "#" + (b + s);
    assert a + "#" + b + s == a + tail;
    LStripBefore(a, tail);
    assert tail[1..] == b + s;
    LStripBefore(b, s);
  }

  lemma LeadRead(lead: string, s: string)
    requires Lead(lead) && s != "" && IsDigit(s[0])
    ensures AfterLead(lead + s) == s
  {
    if AllSpace(lead) {
      SpaceLeadRead(lead, s);
    } else {
      var a, b :| HashLead(lead, a, b);
      HashLeadRead(a, b, s);
    }
  }

  lemma LStripParts(s: string) returns (before: string)
    ensures s == before + LStrip(s) && AllSpace(before)
  {
    LStripped(s);
    before := s[..|s| - |LStrip(s)|];
  }

  lemma LeadFound(s: string) returns (lead: string)
    ensures s == lead + AfterLead(s) && Lead(lead)
  {
    var w := LStripParts(s);
    var a := LStrip(s);
    if a != "" && a[0] == '#' {
      var v := LStripParts(a[1..]);
      lead := w + "#" + v;
      assert a == "#" + a[1..];
      assert s == w + ("#" + (v + AfterLead(s)));
      assert HashLead(lead, w, v);
    } else {
      LStripBefore("", a);
      assert "" + a == a;
      lead := w;
    }
  }

  /** Such a text is what the inline criterion says. */
  lemma NumberAndTextRead(s: string, lead: string, digits: string, gap: string, sep: char, rest: string, text: string)
    requires NumberAndText(s, lead, digits, gap, sep, rest, text)
    ensures AfterAc(s) == Some(text)
  {
    var tail := gap + ([sep] + rest);
    var b := digits + tail;
    InARow(lead, digits, gap, [sep], rest);
    assert s == lead + b && b[0] == digits[0];
    LeadRead(lead, b);
    assert tail[0] == if gap == "" then sep else gap[0];
    DigitLenOf(digits, tail);
    assert b[|digits|..] == tail;
    LStripBefore(gap, [sep] + rest);
    assert ([sep] + rest)[1..] == rest;
  }

  ghost predicate HasNumberAndText(s: string, text: string) {
    exists lead, digits, gap, sep, rest :: NumberAndText(s, lead, digits, gap, sep, rest, text)
  }

  lemma InARow(lead: string, digits: string, gap: string, sep: string, rest: string)
    ensures lead + (digits + (gap + (sep + rest))) == lead + digits + gap + sep + rest
  {
    Reassociate(lead, digits, gap + (sep + rest));
    Reassociate(lead + digits, gap, sep + rest);
    Reassociate(lead + digits + gap, sep, rest);
  }

  lemma NumberAndTextFound(s: string, text: string)
    requires AfterAc(s) == Some(text)
    ensures HasNumberAndText(s, text)
  {
    var lead := LeadFound(s);
    var b := AfterLead(s);
    var d := DigitLen(b);
    DigitsCounted(b);
    var gap := LStripParts(b[d..]);
    var c := LStrip(b[d..]);
    CutApart(b, d);
    CutApart(c, 1);
    assert c[..1] == [c[0]];
    InARow(lead, b[..d], gap, [c[0]], c[1..]);
    assert NumberAndText(s, lead, b[..d], gap, c[0], c[1..], text);
  }

  /** What follows the two letters is an inline criterion with this text exactly when
      it is put together like this. */
  lemma AfterAcIff(s: string, text: string)
    ensures AfterAc(s) == Some(text) <==> HasNumberAndText(s, text)
  {
    if AfterAc(s) == Some(text) {
      NumberAndTextFound(s, text);
    }
    if HasNumberAndText(s, text) {
      var lead, digits, gap, sep, rest :| NumberAndText(s, lead, digits, gap, sep, rest, text);
      NumberAndTextRead(s, lead, digits, gap, sep, rest, text);
    }
  }

  // ---- Line breaks ----

  /** A single break character, or CRLF; a CR that an LF follows is half of a CRLF. */
  predicate LineBreak(end: string, rest: string) {
    end == "\r\n" || (|end| == 1 && IsBreak(end[0]) && !(end == "\r" && rest != "" && rest[0] == '\n'))
  }

  lemma {:induction false} BreakStops(line: string, rest: string)
    requires OneLiner(line) && rest != "" && IsBreak(rest[0])
    ensures BreakAt(line + rest) == |line|
  {
    if line == "" {
      assert line + rest == rest;
    } else {
      assert (line + rest)[1..] == line[1..] + rest;
      BreakStops(line[1..], rest);
    }
  }

  /** Every kind of line break ends a line, CRLF only once. */
  lemma BreaksEndLines(line: string, end: string, rest: string)
    requires OneLiner(line) && LineBreak(end, rest)
    ensures SplitLines(line + end + rest) == [line] + SplitLines(rest)
  {
    var tail := end + rest;
    var s := line + tail;
    assert line + end + rest == s && tail[0] == end[0];
    BreakStops(line, tail);
    assert s[..|line|] == line && s[|line|] == end[0];
    if end == "\r\n" {
      assert s[|line| + 1] == '\n' && s[|line| + 2..] == rest;
    } else {
      assert s[|line| + 1..] == rest;
      assert rest != "" ==> s[|line| + 1] == rest[0];
    }
  }
}
