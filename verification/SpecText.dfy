/** The line-level syntax of a markdown spec: line splitting, headings, bullets
    and inline criteria. */
module SpecText {
  import opened Options
  import opened Text

  // ---- Lines ----

  /** What `str.splitlines` splits at. */
  predicate IsBreak(c: char) {
    '\n' <= c <= '\r' || 28 as char <= c <= 30 as char || c == '\U{85}' || c == '\U{2028}' || c == '\U{2029}'
  }

  predicate OneLiner(s: string) {
    forall i :: 0 <= i < |s| ==> !IsBreak(s[i])
  }

  function BreakAt(s: string): (n: nat)
    ensures n <= |s|
  {
    if s == "" || IsBreak(s[0]) then 0 else 1 + BreakAt(s[1..])
  }

  /** `s.splitlines()` */
  function SplitLines(s: string): seq<string>
    decreases |s|
  {
    if s == "" then []
    else
      var n := BreakAt(s);
      if n == |s| then [s]
      else if s[n] == '\r' && n + 1 < |s| && s[n + 1] == '\n' then [s[..n]] + SplitLines(s[n + 2..])
      else [s[..n]] + SplitLines(s[n + 1..])
  }

  lemma {:induction false} BreakAfter(line: string, rest: string)
    requires OneLiner(line)
    ensures BreakAt(line + "\n" + rest) == |line|
  {
    var s := line + "\n" + rest;
    if line == "" {
      assert s[0] == '\n';
    } else {
      assert s[1..] == line[1..] + "\n" + rest;
      BreakAfter(line[1..], rest);
    }
  }

  lemma SplitFirstLine(line: string, rest: string)
    requires OneLiner(line)
    ensures SplitLines(line + "\n" + rest) == [line] + SplitLines(rest)
  {
    var s := line + "\n" + rest;
    BreakAfter(line, rest);
    assert s[|line|] == '\n' && s[..|line|] == line && s[|line| + 1..] == rest;
  }

  lemma LineThenLines(first: string, text: string, rest: seq<string>)
    requires OneLiner(first) && SplitLines(text) == rest
    ensures SplitLines(first + "\n" + text) == [first] + rest
  {
    SplitFirstLine(first, text);
  }

  ghost predicate OneLiners(ls: seq<string>) {
    forall i :: 0 <= i < |ls| ==> OneLiner(ls[i])
  }

  /** Lines written down are read back. */
  lemma {:induction false} LinesReadBack(ls: seq<string>)
    requires ls != [] && OneLiners(ls)
    ensures SplitLines(Join(ls) + "\n") == ls
  {
    var first, rest := ls[0], ls[1..];
    assert ls == [first] + rest;
    assert OneLiner(first) && OneLiners(rest);
    if rest == [] {
      LineThenLines(first, "", []);
      assert Join(ls) + "\n" == first + "\n" + "";
    } else {
      LinesReadBack(rest);
      LineThenLines(first, Join(rest) + "\n", rest);
      assert Join(ls) + "\n" == first + "\n" + (Join(rest) + "\n");
    }
  }

  lemma {:induction false} JoinConcat(a: seq<string>, b: seq<string>)
    requires a != [] && b != []
    ensures Join(a + b) == Join(a) + "\n" + Join(b)
  {
    if |a| == 1 {
      assert (a + b)[1..] == b;
    } else {
      assert (a + b)[1..] == a[1..] + b;
      JoinConcat(a[1..], b);
    }
  }

  lemma JoinBehind(line: string, rest: seq<string>)
    requires rest != []
    ensures Join([line] + rest) == line + "\n" + Join(rest)
  {
    assert ([line] + rest)[1..] == rest;
  }

  lemma JoinInFront(c: char, ls: seq<string>)
    requires ls != []
    ensures Join([[c] + ls[0]] + ls[1..]) == [c] + Join(ls)
  {
    assert ([[c] + ls[0]] + ls[1..])[1..] == ls[1..];
  }

  lemma {:induction false} JoinSplit(s: string)
    ensures Join(Split(s)) == s
  {
    if s != "" {
      var rest := Split(s[1..]);
      JoinSplit(s[1..]);
      assert s == [s[0]] + s[1..];
      if s[0] == '\n' {
        JoinBehind("", rest);
      } else {
        JoinInFront(s[0], rest);
      }
    }
  }

  // ---- Headings ----

  datatype Heading = Heading(depth: nat, text: string)

  function HashLen(s: string): (n: nat)
    ensures n <= |s|
  {
    if s != "" && s[0] == '#' then 1 + HashLen(s[1..]) else 0
  }

  /** What follows a marker of `n` characters, if there is white space after it
      and then something else. */
  function AfterMarker(s: string, n: nat): Option<string> {
    if n < |s| && IsSpace(s[n]) && Strip(s[n..]) != "" then Some(Strip(s[n..])) else None
  }

  /** `_HEADING` */
  function HeadingOf(line: string): Option<Heading> {
    var s := LStrip(line);
    var n := HashLen(s);
    var rest := AfterMarker(s, n);
    if 1 <= n <= 6 && rest.Some? then Some(Heading(n, rest.value)) else None
  }

  predicate NamesCriteria(text: string) {
    Contains(Lower(text), "acceptance criteria") || Contains(Lower(text), "acceptance") ||
        Contains(Lower(text), "requirements")
  }

  /** `_first_h1` */
  function FirstH1(lines: seq<string>, fallback: string): string {
    if lines == [] then fallback
    else if StartsWith(Strip(lines[0]), "# ") then Strip(Strip(lines[0])[2..])
    else FirstH1(lines[1..], fallback)
  }

  // ---- Bullets ----

  function DigitLen(s: string): (n: nat)
    ensures n <= |s|
  {
    if s != "" && IsDigit(s[0]) then 1 + DigitLen(s[1..]) else 0
  }

  function MarkerLen(s: string): (n: nat)
    ensures n <= |s|
  {
    if s == "" then 0
    else if s[0] == '-' || s[0] == '*' || s[0] == '+' then 1
    else
      var d := DigitLen(s);
      if 0 < d < |s| && (s[d] == '.' || s[d] == ')') then d + 1 else 0
  }

  /** `_BULLET` */
  function BulletOf(line: string): Option<string> {
    var s := LStrip(line);
    var n := MarkerLen(s);
    if n > 0 then AfterMarker(s, n) else None
  }

  // ---- Inline criteria ----

  predicate IsWordChar(c: char) {
    'a' <= c <= 'z' || 'A' <= c <= 'Z' || IsDigit(c) || c == '_'
  }

  /** The rest of `_AC_INLINE` after the two letters. */
  function AfterAc(s: string): Option<string> {
    var a := LStrip(s);
    var b := LStrip(if a != "" && a[0] == '#' then a[1..] else a);
    var d := DigitLen(b);
    var c := LStrip(b[d..]);
    if d > 0 && c != "" && (c[0] == ':' || c[0] == '.' || c[0] == '-') && Strip(c[1..]) != ""
    then Some(Strip(c[1..])) else None
  }

  /** `_AC_INLINE.search`: the leftmost match in `s`; `bounded` says that a word
      may begin here. */
  function InlineFrom(s: string, bounded: bool): Option<string> {
    if |s| < 2 then None
    else if bounded && (s[0] == 'A' || s[0] == 'a') && (s[1] == 'C' || s[1] == 'c') && AfterAc(s[2..]).Some?
    then AfterAc(s[2..])
    else InlineFrom(s[1..], !IsWordChar(s[0]))
  }

  function InlineOf(line: string): Option<string> {
    InlineFrom(line, true)
  }

  // ---- Criteria ----

  datatype Criterion = Criterion(id: string, text: string)

  function Keep(good: string -> bool, cs: seq<string>): seq<string> {
    if cs == [] then []
    else Keep(good, cs[..|cs| - 1]) + if good(cs[|cs| - 1]) then [cs[|cs| - 1]] else []
  }

  predicate HasText(s: string) {
    Strip(s) != ""
  }

  function CriterionId(i: nat): string {
    "AC#" + Decimal(i + 1)
  }

  function NumberFrom(i: nat, cs: seq<string>): seq<Criterion>
    decreases |cs|
  {
    if cs == [] then [] else [Criterion(CriterionId(i), Strip(cs[0]))] + NumberFrom(i + 1, cs[1..])
  }

  /** `_number` */
  function Numbered(cs: seq<string>): seq<Criterion> {
    NumberFrom(0, Keep(HasText, cs))
  }

  lemma {:induction false} NumberedFrom(i: nat, cs: seq<string>, k: nat)
    requires k < |cs|
    ensures |NumberFrom(i, cs)| == |cs| && NumberFrom(i, cs)[k] == Criterion(CriterionId(i + k), Strip(cs[k]))
    decreases |cs|
  {
    if |cs| > 1 {
      NumberedFrom(i + 1, cs[1..], if k == 0 then 0 else k - 1);
    }
  }

  lemma NumberedAt(cs: seq<string>, k: nat)
    requires k < |cs| && Keep(HasText, cs) == cs && Strip(cs[k]) == cs[k]
    ensures |Numbered(cs)| == |cs| && Numbered(cs)[k] == Criterion(CriterionId(k), cs[k])
  {
    NumberedFrom(0, cs, k);
  }

  /** The ids of a spec are pairwise different. */
  lemma IdsDistinct(i: nat, j: nat)
    ensures CriterionId(i) == CriterionId(j) <==> i == j
  {
    DecimalReadsBack(i + 1);
    DecimalReadsBack(j + 1);
    assert CriterionId(i)[3..] == Decimal(i + 1) && CriterionId(j)[3..] == Decimal(j + 1);
  }

  // ---- Inline markers are read ----

  lemma {:induction false} DigitLenOf(digits: string, rest: string)
    requires AllDigits(digits) && (rest == "" || !IsDigit(rest[0]))
    ensures DigitLen(digits + rest) == |digits|
  {
    if digits == "" {
      assert digits + rest == rest;
    } else {
      assert (digits + rest)[1..] == digits[1..] + rest;
      DigitLenOf(digits[1..], rest);
    }
  }

  lemma AfterAcRead(digits: string, body: string)
    requires digits != "" && AllDigits(digits) && HasText(body)
    ensures AfterAc("#" + digits + ":" + body) == Some(Strip(body))
  {
    var b := digits + (":" + body);
    var s := "#" + digits + ":" + body;
    assert s[0] == '#' && s[1..] == b && b[0] == digits[0];
    DigitLenOf(digits, ":" + body);
    assert b[|digits|..] == ":" + body && (":" + body)[1..] == body;
  }

  lemma InlineAtStart(line: string, rest: string)
    requires |line| >= 2 && line[0] == 'A' && line[1] == 'C' && line[2..] == rest && AfterAc(rest).Some?
    ensures InlineOf(line) == AfterAc(rest)
  {
  }

  /** What follows the two letters of a criterion id. */
  lemma AfterLetters(i: nat, tail: string)
    ensures var line := CriterionId(i) + tail;
      |line| >= 2 && line[0] == 'A' && line[1] == 'C' && line[2..] == "#" + Decimal(i + 1) + tail
  {
    var id, digits := CriterionId(i), Decimal(i + 1);
    assert id[0] == 'A' && id[1] == 'C' && id[2..] == "#" + digits;
    assert (id + tail)[2..] == id[2..] + tail;
  }

  /** A line that begins with a criterion id and a colon is an inline criterion,
      whatever the number. */
  lemma InlineIsRead(i: nat, body: string)
    requires HasText(body)
    ensures InlineOf(CriterionId(i) + ":" + body) == Some(Strip(body))
  {
    var digits, tail := Decimal(i + 1), ":" + body;
    DecimalDigits(i + 1);
    AfterAcRead(digits, body);
    AfterLetters(i, tail);
    Reassociate(CriterionId(i), ":", body);
    Reassociate("#" + digits, ":", body);
    InlineAtStart(CriterionId(i) + tail, "#" + digits + tail);
  }
}
