/** Strings the way Python's `str` methods see them, as far as the modelled
    code uses them. */
module Text {

  /** White space beyond ASCII. */
  predicate IsWideSpace(c: char) {
    c == '\U{85}' || c == '\U{A0}' || c == '\U{1680}' || '\U{2000}' <= c <= '\U{200A}' ||
    '\U{2028}' <= c <= '\U{2029}' || c == '\U{202F}' || c == '\U{205F}' || c == '\U{3000}'
  }

  /** `str.isspace` on one character; also what `\s` matches. */
  predicate IsSpace(c: char) {
    9 as char <= c <= 13 as char || 28 as char <= c <= ' ' || IsWideSpace(c)
  }

  predicate AllSpace(s: string) {
    forall i :: 0 <= i < |s| ==> IsSpace(s[i])
  }

  lemma AllSpaceConcat(a: string, b: string)
    ensures AllSpace(a + b) <==> AllSpace(a) && AllSpace(b)
  {
    if AllSpace(a + b) {
      forall i | 0 <= i < |a|
        ensures IsSpace(a[i])
      {
        assert (a + b)[i] == a[i];
      }
      forall i | 0 <= i < |b|
        ensures IsSpace(b[i])
      {
        assert (a + b)[|a| + i] == b[i];
      }
    }
  }

  function LStrip(s: string): (r: string)
    ensures r == "" || !IsSpace(r[0])
    ensures |r| <= |s|
  {
    if s != "" && IsSpace(s[0]) then LStrip(s[1..]) else s
  }

  function RStrip(s: string): (r: string)
    ensures r == "" || !IsSpace(r[|r| - 1])
    ensures |r| <= |s|
  {
    if s != "" && IsSpace(s[|s| - 1]) then RStrip(s[..|s| - 1]) else s
  }

  function Strip(s: string): (r: string)
    ensures r == "" || (!IsSpace(r[0]) && !IsSpace(r[|r| - 1]))
  {
    RStripped(LStrip(s));
    RStrip(LStrip(s))
  }

  lemma {:induction false} LStripped(s: string)
    ensures var r := LStrip(s); r == s[|s| - |r|..] && AllSpace(s[..|s| - |r|])
  {
    if s != "" && IsSpace(s[0]) {
      LStripped(s[1..]);
      assert s[..|s| - |LStrip(s)|] == [s[0]] + s[1..][..|s[1..]| - |LStrip(s)|];
    }
  }

  lemma {:induction false} RStripped(s: string)
    ensures var r := RStrip(s); r == s[..|r|] && AllSpace(s[|r|..])
  {
    if s != "" && IsSpace(s[|s| - 1]) {
      RStripped(s[..|s| - 1]);
      assert s[|RStrip(s)|..] == s[..|s| - 1][|RStrip(s)|..] + [s[|s| - 1]];
    }
  }

  predicate Trimmed(s: string) {
    s == "" || (!IsSpace(s[0]) && !IsSpace(s[|s| - 1]))
  }

  lemma StripTrimmed(s: string)
    requires Trimmed(s)
    ensures LStrip(s) == s && RStrip(s) == s && Strip(s) == s
  {
  }

  lemma {:induction false} LStripSpaces(s: string)
    requires AllSpace(s)
    ensures LStrip(s) == ""
  {
    if s != "" {
      LStripSpaces(s[1..]);
    }
  }

  lemma {:induction false} StripSpaces(s: string)
    requires AllSpace(s)
    ensures RStrip(s) == "" && Strip(s) == ""
  {
    LStripSpaces(s);
    if s != "" {
      StripSpaces(s[..|s| - 1]);
    }
  }

  lemma StripEmptyIff(s: string)
    ensures Strip(s) == "" <==> AllSpace(s)
  {
    var l := LStrip(s);
    if Strip(s) == "" {
      LStripped(s);
      RStripped(l);
      assert AllSpace(l) by {
        assert l[0..] == l;
      }
      assert s == s[..|s| - |l|] + l;
    }
    if AllSpace(s) {
      StripSpaces(s);
    }
  }

  lemma {:induction false} StripRStripIff(s: string)
    ensures Strip(RStrip(s)) == "" <==> AllSpace(s)
  {
    if s != "" && IsSpace(s[|s| - 1]) {
      StripRStripIff(s[..|s| - 1]);
    } else {
      StripEmptyIff(s);
    }
  }

  lemma RStripEmpty(s: string)
    requires RStrip(s) == ""
    ensures AllSpace(s)
  {
    RStripped(s);
    assert s[0..] == s;
  }

  lemma Reassociate(a: string, b: string, c: string)
    ensures a + b + c == a + (b + c)
  {
  }

  lemma CutApart(s: string, n: nat)
    requires n <= |s|
    ensures s[..n] + s[n..] == s
  {
  }

  /** A string is its stripped text with white space on either side. */
  lemma StripParts(s: string) returns (before: string, after: string)
    ensures s == before + Strip(s) + after && AllSpace(before) && AllSpace(after)
  {
    var l := LStrip(s);
    LStripped(s);
    RStripped(l);
    var r := RStrip(l);
    before, after := s[..|s| - |l|], l[|r|..];
    CutApart(s, |s| - |l|);
    CutApart(l, |r|);
    Reassociate(before, r, after);
  }

  lemma {:induction false} LStripBefore(before: string, s: string)
    requires AllSpace(before) && (s == "" || !IsSpace(s[0]))
    ensures LStrip(before + s) == s
  {
    if before == "" {
      assert before + s == s;
    } else {
      assert (before + s)[1..] == before[1..] + s;
      LStripBefore(before[1..], s);
    }
  }

  lemma {:induction false} RStripAfter(s: string, after: string)
    requires AllSpace(after) && (s == "" || !IsSpace(s[|s| - 1]))
    ensures RStrip(s + after) == s
  {
    if after == "" {
      assert s + after == s;
    } else {
      var n := |after| - 1;
      assert (s + after)[..|s + after| - 1] == s + after[..n];
      RStripAfter(s, after[..n]);
    }
  }

  /** And that is the only way to take it apart. */
  lemma StripIs(before: string, m: string, after: string)
    requires AllSpace(before) && AllSpace(after)
    requires m != "" && !IsSpace(m[0]) && !IsSpace(m[|m| - 1])
    ensures Strip(before + m + after) == m
  {
    assert before + m + after == before + (m + after);
    LStripBefore(before, m + after);
    RStripAfter(m, after);
  }

  // ---- Lines ----

  /** `s.split("\n")`. */
  function Split(s: string): (ls: seq<string>)
    ensures |ls| >= 1
  {
    if s == "" then [""]
    else if s[0] == '\n' then [""] + Split(s[1..])
    else
      var rest := Split(s[1..]);
      [[s[0]] + rest[0]] + rest[1..]
  }

  /** `"\n".join(ls)`. */
  function Join(ls: seq<string>): string {
    if ls == [] then ""
    else if |ls| == 1 then ls[0]
    else ls[0] + "\n" + Join(ls[1..])
  }

  lemma {:induction false} SplitLine(line: string, rest: string)
    requires '\n' !in line
    ensures Split(line + "\n" + rest) == [line] + Split(rest)
  {
    var s := line + "\n" + rest;
    if line == "" {
      assert s[1..] == rest;
    } else {
      assert s[0] == line[0] && s[0] in line;
      assert s[1..] == line[1..] + "\n" + rest;
      SplitLine(line[1..], rest);
      assert Split(s[1..])[1..] == Split(rest);
      assert [line[0]] + line[1..] == line;
    }
  }

  // ---- Order ----

  /** Python's `<=` on strings: code point by code point. */
  predicate StringLeq(a: string, b: string) {
    a == "" || (b != "" && (a[0] < b[0] || (a[0] == b[0] && StringLeq(a[1..], b[1..]))))
  }

  lemma {:induction false} StringLeqTotal(a: string, b: string)
    ensures StringLeq(a, b) || StringLeq(b, a)
    ensures StringLeq(a, b) && StringLeq(b, a) ==> a == b
  {
    if a != "" && b != "" {
      StringLeqTotal(a[1..], b[1..]);
      assert a == [a[0]] + a[1..] && b == [b[0]] + b[1..];
    }
  }

  lemma {:induction false} StringLeqTransitive(a: string, b: string, c: string)
    requires StringLeq(a, b) && StringLeq(b, c)
    ensures StringLeq(a, c)
  {
    if a != "" && b != "" && c != "" && a[0] == b[0] == c[0] {
      StringLeqTransitive(a[1..], b[1..], c[1..]);
    }
  }

  /** A string comes before the ones it begins, and otherwise the first characters
      that differ decide. */
  lemma {:induction false} StringOrder(common: string, a: string, b: string)
    ensures StringLeq(common, common + b)
    ensures StringLeq(common + b, common) <==> b == ""
    ensures a != "" && b != "" && a[0] != b[0] ==> (StringLeq(common + a, common + b) <==> a[0] < b[0])
  {
    if common == "" {
      assert common + a == a && common + b == b;
    } else {
      assert (common + a)[1..] == common[1..] + a && (common + b)[1..] == common[1..] + b;
      StringOrder(common[1..], a, b);
    }
  }

  /** `str.lower` up to the letters ASCII words are made of: besides A to Z only
      the Kelvin sign lowers to an ASCII letter. */
  function LowerChar(c: char): char {
    if 'A' <= c <= 'Z' then c - 'A' + 'a'
    else if c == '\U{212A}' then 'k'
    else c
  }

  function Lower(s: string): string {
    seq(|s|, i requires 0 <= i < |s| => LowerChar(s[i]))
  }

  predicate StartsWith(s: string, prefix: string) {
    |prefix| <= |s| && s[..|prefix|] == prefix
  }

  predicate Contains(s: string, part: string) {
    StartsWith(s, part) || (s != "" && Contains(s[1..], part))
  }

  // ---- Numbers ----

  predicate IsDigit(c: char) {
    '0' <= c <= '9'
  }

  function Decimal(n: nat): (s: string)
    ensures s != ""
  {
    var last := ['0' + (n % 10) as char];
    if n < 10 then last else Decimal(n / 10) + last
  }

  function FromDecimal(s: string): int {
    if s == "" then 0
    else 10 * FromDecimal(s[..|s| - 1]) + (s[|s| - 1] as int - '0' as int)
  }

  /** Numbers are told apart by how they are written. */
  lemma {:induction false} DecimalReadsBack(n: nat)
    ensures FromDecimal(Decimal(n)) == n
  {
    var s := Decimal(n);
    if n < 10 {
      assert s[..0] == "";
    } else {
      DecimalReadsBack(n / 10);
      assert s[..|s| - 1] == Decimal(n / 10);
    }
  }

  predicate AllDigits(s: string) {
    forall i :: 0 <= i < |s| ==> IsDigit(s[i])
  }

  lemma {:induction false} DecimalDigits(n: nat)
    ensures AllDigits(Decimal(n))
  {
    if n >= 10 {
      DecimalDigits(n / 10);
    }
  }

  /** A number and the digits of another one that it begins with. */
  lemma DecimalBegins(i: nat, j: nat, rest: string)
    requires rest == "" || !IsDigit(rest[0])
    ensures StartsWith(Decimal(j) + rest, Decimal(i)) <==> StartsWith(Decimal(j), Decimal(i))
  {
    var di, dj := Decimal(i), Decimal(j);
    DecimalDigits(i);
    var s := dj + rest;
    if |di| <= |dj| {
      assert s[..|di|] == dj[..|di|];
    } else if |di| <= |s| {
      assert s[..|di|][|dj|] == rest[0] && IsDigit(di[|dj|]);
    }
  }

  /** The number written with `n + 1` ones. */
  function Ones(n: nat): nat {
    if n == 0 then 1 else 10 * Ones(n - 1) + 1
  }

  lemma {:induction false} OnesLength(n: nat)
    ensures Ones(n) >= 1 && |Decimal(Ones(n))| == n + 1
  {
    if n > 0 {
      OnesLength(n - 1);
      assert Ones(n) / 10 == Ones(n - 1);
    }
  }
}
