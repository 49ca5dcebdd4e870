/** `normalise_for_dedup`: the white-space-normal form. */
module NormalForm {
  import opened Text

  // What it remembers of a source: the indent and the words of every line that is
  // not blank.

  predicate IsTab(c: char) {
    c == ' ' || c == '\t'
  }

  /** `replace("\r\n", "\n")`, then `replace("\r", "\n")`. */
  function CrLfToLf(s: string): string {
    if s == "" then ""
    else if |s| >= 2 && s[0] == '\r' && s[1] == '\n' then "\n" + CrLfToLf(s[2..])
    else [s[0]] + CrLfToLf(s[1..])
  }

  function CrToLf(s: string): (r: string)
    ensures |r| == |s| && forall i :: 0 <= i < |s| ==> r[i] == if s[i] == '\r' then '\n' else s[i]
  {
    seq(|s|, i requires 0 <= i < |s| => if s[i] == '\r' then '\n' else s[i])
  }

  /** CRLF, CR or LF; a CR that is followed by an LF is half of a CRLF. */
  predicate LineEnd(end: string, rest: string) {
    end == "\n" || end == "\r\n" || (end == "\r" && (rest == "" || rest[0] != '\n'))
  }

  lemma {:induction false} EndsAfter(line: string, rest: string)
    requires '\r' !in line
    ensures CrLfToLf(line + rest) == line + CrLfToLf(rest)
  {
    if line == "" {
      assert line + rest == rest;
    } else {
      var s := line + rest;
      assert s[0] == line[0] && s[0] in line && s[1..] == line[1..] + rest;
      EndsAfter(line[1..], rest);
      assert line == [line[0]] + line[1..];
    }
  }

  lemma EndIsLf(end: string, rest: string)
    requires LineEnd(end, rest)
    ensures CrToLf(CrLfToLf(end + rest)) == "\n" + CrToLf(CrLfToLf(rest))
  {
    var s := end + rest;
    if end == "\r\n" {
      assert s[0] == '\r' && s[1] == '\n' && s[2..] == rest;
    } else {
      assert s[0] == end[0] && s[1..] == rest;
      assert |s| >= 2 ==> s[1] == rest[0];
    }
  }

  function IndentLen(s: string): (n: nat)
    ensures n <= |s| && (forall i :: 0 <= i < n ==> IsTab(s[i])) && (n < |s| ==> !IsTab(s[n]))
  {
    if s != "" && IsTab(s[0]) then 1 + IndentLen(s[1..]) else 0
  }

  /** `re.sub("[ \t]+", " ", s)`. */
  function Collapse(s: string): string
    decreases |s|
  {
    if s == "" then ""
    else if IsTab(s[0]) then " " + Collapse(s[IndentLen(s)..])
    else [s[0]] + Collapse(s[1..])
  }

  predicate BlankLine(line: string) {
    AllSpace(line)
  }

  /** The code's test for a blank line is the plain one. */
  lemma BlankLineIff(line: string)
    ensures Strip(RStrip(line)) == "" <==> BlankLine(line)
  {
    StripRStripIff(line);
  }

  function NormStripped(stripped: string): string {
    var i := IndentLen(stripped);
    stripped[..i] + Collapse(stripped[i..])
  }

  function NormLine(line: string): string {
    NormStripped(RStrip(line))
  }

  /** `f` of every line that is not dropped. */
  function KeepMap<T>(drop: string -> bool, f: string -> T, lines: seq<string>): seq<T> {
    if lines == [] then []
    else
      var kept := KeepMap(drop, f, lines[..|lines| - 1]);
      var line := lines[|lines| - 1];
      if drop(line) then kept else kept + [f(line)]
  }

  function NormLines(lines: seq<string>): seq<string> {
    KeepMap(BlankLine, NormLine, lines)
  }

  function Lines(source: string): seq<string> {
    Split(CrToLf(CrLfToLf(source)))
  }

  /** Every kind of line end ends a line. */
  lemma LinesEnd(line: string, end: string, rest: string)
    requires '\r' !in line && '\n' !in line && LineEnd(end, rest)
    ensures Lines(line + end + rest) == [line] + Lines(rest)
  {
    assert line + end + rest == line + (end + rest);
    EndsAfter(line, end + rest);
    EndIsLf(end, rest);
    var tail := CrToLf(CrLfToLf(rest));
    assert CrToLf(line + CrLfToLf(end + rest)) == line + CrToLf(CrLfToLf(end + rest));
    assert line + ("\n" + tail) == line + "\n" + tail;
    SplitLine(line, tail);
  }

  function Unlines(lines: seq<string>): string {
    if lines == [] then "" else Join(lines) + "\n"
  }

  function Normalise(source: string): string {
    Unlines(NormLines(Lines(source)))
  }

  method IndentLength(stripped: string) returns (i: nat)
    ensures i == IndentLen(stripped)
  {
    i := 0;
    while i < |stripped| && IsTab(stripped[i])
      invariant i <= IndentLen(stripped)
    {
      i := i + 1;
    }
  }

  method NormaliseLine(line: string) returns (kept: bool, normal: string)
    ensures kept == !BlankLine(line)
    ensures kept ==> normal == NormLine(line)
  {
    var stripped := RStrip(line);
    BlankLineIff(line);
    if Strip(stripped) == "" {
      return false, "";
    }
    var i := IndentLength(stripped);
    return true, stripped[..i] + Collapse(stripped[i..]);
  }

  method NormaliseLines(lines: seq<string>) returns (out: seq<string>)
    ensures out == NormLines(lines)
  {
    out := [];
    for k := 0 to |lines|
      invariant out == NormLines(lines[..k])
    {
      assert lines[..k + 1][..k] == lines[..k];
      var kept, line := NormaliseLine(lines[k]);
      if kept {
        out := out + [line];
      }
    }
    assert lines[..|lines|] == lines;
  }

  method NormaliseForDedup(source: string) returns (normal: string)
    ensures normal == Normalise(source)
  {
    var out := NormaliseLines(Lines(source));
    normal := if |out| > 0 then Join(out) + "\n" else "";
  }

  // ---- What a normal form remembers ----

  /** The exact indent of a line and the words after it. */
  datatype LineKey = LineKey(indent: string, words: seq<string>)

  function WordLen(s: string): (n: nat)
    ensures n <= |s| && (forall i :: 0 <= i < n ==> !IsTab(s[i])) && (n < |s| ==> IsTab(s[n]))
  {
    if s != "" && !IsTab(s[0]) then 1 + WordLen(s[1..]) else 0
  }

  /** The words of a line: what is left between runs of spaces and tabs. */
  function Words(s: string): seq<string>
    decreases |s|
  {
    if s == "" then []
    else if IsTab(s[0]) then Words(s[IndentLen(s)..])
    else [s[..WordLen(s)]] + Words(s[WordLen(s)..])
  }

  function Unwords(words: seq<string>): string {
    if words == [] then ""
    else if |words| == 1 then words[0]
    else words[0] + " " + Unwords(words[1..])
  }

  function KeyOfStripped(stripped: string): LineKey {
    var i := IndentLen(stripped);
    LineKey(stripped[..i], Words(stripped[i..]))
  }

  function KeyOf(line: string): LineKey {
    KeyOfStripped(RStrip(line))
  }

  function KeysOf(lines: seq<string>): seq<LineKey> {
    KeepMap(BlankLine, KeyOf, lines)
  }

  /** The non-blank lines of a source, each as its indent and its words. */
  function Keys(source: string): seq<LineKey> {
    KeysOf(Lines(source))
  }

  function Render(key: LineKey): string {
    key.indent + Unwords(key.words)
  }

  predicate Word(w: string) {
    w != "" && forall i :: 0 <= i < |w| ==> !IsTab(w[i]) && w[i] != '\n' && w[i] != '\r'
  }

  predicate GoodWords(words: seq<string>) {
    words != [] && (forall w :: w in words ==> Word(w)) &&
    var last := words[|words| - 1];
    Word(last) && !IsSpace(last[|last| - 1])
  }

  predicate GoodKey(key: LineKey) {
    (forall i :: 0 <= i < |key.indent| ==> IsTab(key.indent[i])) && GoodWords(key.words)
  }

  // ---- Words and lines ----

  lemma {:induction false} CollapseWord(w: string, rest: string)
    requires forall i :: 0 <= i < |w| ==> !IsTab(w[i])
    ensures Collapse(w + rest) == w + Collapse(rest)
  {
    if w == "" {
      assert w + rest == rest;
    } else {
      assert (w + rest)[1..] == w[1..] + rest;
      CollapseWord(w[1..], rest);
    }
  }

  lemma UnwordsCons(w: string, ws: seq<string>)
    requires ws != []
    ensures Unwords([w] + ws) == w + " " + Unwords(ws)
  {
    assert ([w] + ws)[1..] == ws;
  }

  lemma WordFirst(s: string)
    requires s != "" && !IsTab(s[0])
    ensures var n := WordLen(s);
      Words(s) == [s[..n]] + Words(s[n..]) && Collapse(s) == s[..n] + Collapse(s[n..])
  {
    var n := WordLen(s);
    assert s == s[..n] + s[n..];
    CollapseWord(s[..n], s[n..]);
  }

  lemma RunFirst(s: string)
    requires s != "" && IsTab(s[0])
    ensures var next := s[IndentLen(s)..]; Words(s) == Words(next) && Collapse(s) == " " + Collapse(next)
  {
  }

  predicate Bare(s: string) {
    s == "" || (!IsTab(s[0]) && !IsTab(s[|s| - 1]))
  }

  /** The first word, and what is left after the run that follows it. */
  lemma WordThenNext(s: string) returns (w: string, next: string)
    requires s != "" && Bare(s)
    ensures |next| < |s| && Bare(next)
    ensures next == "" ==> Words(s) == [w] && Collapse(s) == w
    ensures next != "" ==> Words(s) == [w] + Words(next) && Collapse(s) == w + (" " + Collapse(next))
  {
    w, next := s[..WordLen(s)], s[WordLen(s)..];
    WordFirst(s);
    if next != "" {
      var rest := next;
      assert rest[|rest| - 1] == s[|s| - 1];
      RunFirst(rest);
      next := rest[IndentLen(rest)..];
      assert next != "" && next[|next| - 1] == rest[|rest| - 1];
    }
  }

  lemma WrittenOn(w: string, words: seq<string>, text: string)
    requires words != [] && text == Unwords(words)
    ensures w + (" " + text) == Unwords([w] + words)
  {
    UnwordsCons(w, words);
  }

  /** Collapsing the runs is writing the words with one space between them. */
  lemma {:induction false} CollapseIsUnwords(s: string)
    requires Bare(s)
    ensures Collapse(s) == Unwords(Words(s))
    ensures s != "" ==> Words(s) != []
    decreases |s|
  {
    if s != "" {
      var w, next := WordThenNext(s);
      if next != "" {
        CollapseIsUnwords(next);
        WrittenOn(w, Words(next), Collapse(next));
      }
    }
  }

  predicate OneLine(s: string) {
    forall i :: 0 <= i < |s| ==> s[i] != '\n' && s[i] != '\r'
  }

  lemma {:induction false} WordsAreWords(s: string)
    requires OneLine(s)
    ensures forall w :: w in Words(s) ==> Word(w)
    decreases |s|
  {
    if s != "" {
      var n := if IsTab(s[0]) then IndentLen(s) else WordLen(s);
      WordsAreWords(s[n..]);
    }
  }

  lemma {:induction false} LastWord(s: string)
    requires s != "" && !IsTab(s[|s| - 1])
    ensures Words(s) != []
    ensures var last := Words(s)[|Words(s)| - 1]; last != "" && last[|last| - 1] == s[|s| - 1]
    decreases |s|
  {
    var n := if IsTab(s[0]) then IndentLen(s) else WordLen(s);
    if n < |s| {
      LastWord(s[n..]);
    } else {
      assert s[n..] == "" && s[..n] == s;
    }
  }

  lemma {:induction false} WordThenRest(w: string, rest: string)
    requires forall i :: 0 <= i < |w| ==> !IsTab(w[i])
    requires rest == "" || IsTab(rest[0])
    ensures WordLen(w + rest) == |w|
  {
    if w == "" {
      assert w + rest == rest;
    } else {
      assert (w + rest)[1..] == w[1..] + rest;
      WordThenRest(w[1..], rest);
    }
  }

  lemma WordAndSpace(w: string, rest: string)
    requires Word(w) && rest != "" && !IsTab(rest[0])
    ensures Words(w + " " + rest) == [w] + Words(rest)
    ensures (w + " " + rest)[0] == w[0]
  {
    var tail := " " + rest;
    assert w + " " + rest == w + tail;
    WordThenRest(w, tail);
    assert tail[1..] == rest && IndentLen(tail) == 1;
    assert (w + tail)[|w|..] == tail;
  }

  lemma {:induction false} WordsUnwords(words: seq<string>)
    requires forall w :: w in words ==> Word(w)
    ensures Words(Unwords(words)) == words
    ensures words != [] ==> Unwords(words) != "" && words[0] != "" && Unwords(words)[0] == words[0][0]
  {
    if |words| == 1 {
      var w := words[0];
      assert Word(w);
      WordThenRest(w, "");
      assert w + "" == w;
    } else if |words| > 1 {
      var rest := words[1..];
      assert Word(words[0]) && Word(rest[0]);
      WordsUnwords(rest);
      WordAndSpace(words[0], Unwords(rest));
    }
  }

  lemma IndentEnds(stripped: string)
    requires stripped != "" && !IsSpace(stripped[|stripped| - 1])
    ensures IndentLen(stripped) < |stripped|
  {
    var last := stripped[|stripped| - 1];
    assert !IsTab(last);
  }

  /** After the indent of a line that is not blank comes a word. */
  lemma BodyStarts(line: string)
    requires !BlankLine(line)
    ensures IndentLen(RStrip(line)) < |RStrip(line)|
    ensures !IsSpace(RStrip(line)[|RStrip(line)| - 1])
  {
    if RStrip(line) == "" {
      RStripEmpty(line);
    }
    IndentEnds(RStrip(line));
  }

  lemma StripKeepsOneLine(line: string)
    requires OneLine(line)
    ensures OneLine(RStrip(line))
  {
    RStripped(line);
  }

  /** The words of a line's body make the end of a good key. */
  lemma BodyWords(body: string)
    requires OneLine(body) && body != "" && !IsTab(body[|body| - 1]) && !IsSpace(body[|body| - 1])
    ensures GoodWords(Words(body))
  {
    WordsAreWords(body);
    LastWord(body);
  }

  lemma StrippedIsRender(stripped: string)
    requires OneLine(stripped) && IndentLen(stripped) < |stripped| && !IsSpace(stripped[|stripped| - 1])
    ensures NormStripped(stripped) == Render(KeyOfStripped(stripped)) && GoodKey(KeyOfStripped(stripped))
  {
    var i := IndentLen(stripped);
    var body := stripped[i..];
    var last := stripped[|stripped| - 1];
    assert body[|body| - 1] == last;
    assert !IsTab(last);
    CollapseIsUnwords(body);
    BodyWords(body);
  }

  /** A line is written the way its key reads. */
  lemma NormLineIsRender(line: string)
    requires !BlankLine(line) && OneLine(line)
    ensures NormLine(line) == Render(KeyOf(line)) && GoodKey(KeyOf(line))
  {
    BodyStarts(line);
    StripKeepsOneLine(line);
    var stripped := RStrip(line);
    StrippedIsRender(stripped);
    assert NormLine(line) == NormStripped(stripped) && KeyOf(line) == KeyOfStripped(stripped);
  }

  lemma {:induction false} UnwordsEnds(words: seq<string>)
    requires words != [] && forall w :: w in words ==> Word(w)
    ensures Unwords(words) != ""
    ensures var last := words[|words| - 1]; last != "" && Unwords(words)[|Unwords(words)| - 1] == last[|last| - 1]
    ensures OneLine(Unwords(words))
  {
    var w := words[0];
    assert Word(w);
    if |words| > 1 {
      var rest := Unwords(words[1..]);
      UnwordsEnds(words[1..]);
      var s := w + " " + rest;
      assert s[|s| - 1] == rest[|rest| - 1];
      assert OneLine(w) && OneLine(" ");
      assert OneLine(s);
    }
  }

  lemma {:induction false} IndentThenWord(indent: string, rest: string)
    requires forall i :: 0 <= i < |indent| ==> IsTab(indent[i])
    requires rest != "" && !IsTab(rest[0])
    ensures IndentLen(indent + rest) == |indent|
  {
    if indent == "" {
      assert indent + rest == rest;
    } else {
      assert (indent + rest)[1..] == indent[1..] + rest;
      IndentThenWord(indent[1..], rest);
    }
  }

  lemma RenderEnds(key: LineKey)
    requires GoodKey(key)
    ensures Render(key) != "" && !IsSpace(Render(key)[|Render(key)| - 1]) && OneLine(Render(key))
  {
    var line, body := Render(key), Unwords(key.words);
    UnwordsEnds(key.words);
    assert line[|line| - 1] == body[|body| - 1];
  }

  lemma KeyOfStrippedRender(key: LineKey)
    requires GoodKey(key)
    ensures KeyOfStripped(Render(key)) == key
  {
    var line, body := Render(key), Unwords(key.words);
    assert Word(key.words[0]);
    WordsUnwords(key.words);
    IndentThenWord(key.indent, body);
    assert line[|key.indent|..] == body && line[..|key.indent|] == key.indent;
  }

  /** A key is read back from the line it is written as. */
  lemma KeyOfRender(key: LineKey)
    requires GoodKey(key)
    ensures KeyOf(Render(key)) == key && !BlankLine(Render(key)) && OneLine(Render(key))
  {
    KeyOfStrippedRender(key);
    RenderEnds(key);
    var line := Render(key);
    assert !IsSpace(line[|line| - 1]);
    assert RStrip(line) == line;
  }

  // ---- Whole sources ----

  lemma {:induction false} SplitLines(s: string)
    requires forall i :: 0 <= i < |s| ==> s[i] != '\r'
    ensures Each(OneLine, Split(s))
  {
    if s != "" {
      SplitLines(s[1..]);
      var rest := Split(s[1..]);
      assert OneLine(rest[0]);
    }
  }

  lemma LinesAreLines(source: string)
    ensures Each(OneLine, Lines(source))
  {
    SplitLines(CrToLf(CrLfToLf(source)));
  }

  lemma {:induction false} NoCarriageReturns(s: string)
    requires forall i :: 0 <= i < |s| ==> s[i] != '\r'
    ensures CrLfToLf(s) == s && CrToLf(s) == s
  {
    if s != "" {
      NoCarriageReturns(s[1..]);
    }
  }

  function MapAll<S, T>(f: S -> T, xs: seq<S>): seq<T> {
    if xs == [] then [] else MapAll(f, xs[..|xs| - 1]) + [f(xs[|xs| - 1])]
  }

  predicate Each<T>(good: T -> bool, xs: seq<T>) {
    forall i :: 0 <= i < |xs| ==> good(xs[i])
  }

  lemma {:induction false} EachMap<S, T>(f: S -> T, good: T -> bool, xs: seq<S>)
    requires forall i :: 0 <= i < |xs| ==> good(f(xs[i]))
    ensures Each(good, MapAll(f, xs))
  {
    if xs != [] {
      EachMap(f, good, xs[..|xs| - 1]);
    }
  }

  lemma {:induction false} EachKept<T>(drop: string -> bool, f: string -> T, good: T -> bool, lines: seq<string>)
    requires forall i :: 0 <= i < |lines| && !drop(lines[i]) ==> good(f(lines[i]))
    ensures Each(good, KeepMap(drop, f, lines))
  {
    if lines != [] {
      EachKept(drop, f, good, lines[..|lines| - 1]);
    }
  }

  /** Keeping `f` of each line is writing down what `key` reads from it. */
  lemma {:induction false} KeptIsWritten<K>(drop: string -> bool, f: string -> string, key: string -> K,
                                          write: K -> string,
                                            lines: seq<string>)
    requires forall i :: 0 <= i < |lines| && !drop(lines[i]) ==> f(lines[i]) == write(key(lines[i]))
    ensures KeepMap(drop, f, lines) == MapAll(write, KeepMap(drop, key, lines))
  {
    if lines != [] {
      var front, line := lines[..|lines| - 1], lines[|lines| - 1];
      KeptIsWritten(drop, f, key, write, front);
      var keys := KeepMap(drop, key, front);
      assert (keys + [key(line)])[..|keys|] == keys;
    }
  }

  /** What is written down reads back. */
  lemma {:induction false} WrittenIsRead<K>(drop: string -> bool, key: string -> K, write: K -> string, keys: seq<K>)
    requires forall i :: 0 <= i < |keys| ==> !drop(write(keys[i])) && key(write(keys[i])) == keys[i]
    ensures KeepMap(drop, key, MapAll(write, keys)) == keys
  {
    if keys != [] {
      var front, last := keys[..|keys| - 1], keys[|keys| - 1];
      WrittenIsRead(drop, key, write, front);
      var lines := MapAll(write, front);
      assert (lines + [write(last)])[..|lines|] == lines;
    }
  }

  lemma NormLinesRender(lines: seq<string>)
    requires Each(OneLine, lines)
    ensures NormLines(lines) == MapAll(Render, KeysOf(lines)) && Each(GoodKey, KeysOf(lines))
  {
    forall i | 0 <= i < |lines| && !BlankLine(lines[i])
      ensures NormLine(lines[i]) == Render(KeyOf(lines[i])) && GoodKey(KeyOf(lines[i]))
    {
      NormLineIsRender(lines[i]);
    }
    KeptIsWritten(BlankLine, NormLine, KeyOf, Render, lines);
    EachKept(BlankLine, KeyOf, GoodKey, lines);
  }

  lemma KeysOfRenderAll(keys: seq<LineKey>)
    requires Each(GoodKey, keys)
    ensures KeysOf(MapAll(Render, keys)) == keys
    ensures Each(OneLine, MapAll(Render, keys))
  {
    forall i | 0 <= i < |keys|
      ensures !BlankLine(Render(keys[i])) && KeyOf(Render(keys[i])) == keys[i] && OneLine(Render(keys[i]))
    {
      KeyOfRender(keys[i]);
    }
    WrittenIsRead(BlankLine, KeyOf, Render, keys);
    EachMap(Render, OneLine, keys);
  }

  lemma {:induction false} SplitUnlines(ls: seq<string>)
    requires ls != [] && Each(OneLine, ls)
    ensures Split(Unlines(ls)) == ls + [""]
    ensures NoReturns(Unlines(ls))
  {
    assert OneLine(ls[0]);
    if |ls| == 1 {
      SplitLine(ls[0], "");
      assert Unlines(ls) == ls[0] + "\n" + "";
    } else {
      SplitUnlines(ls[1..]);
      assert Unlines(ls) == ls[0] + "\n" + Unlines(ls[1..]);
      SplitLine(ls[0], Unlines(ls[1..]));
      assert ls == [ls[0]] + ls[1..];
    }
  }

  predicate NoReturns(s: string) {
    forall i :: 0 <= i < |s| ==> s[i] != '\r'
  }

  lemma EmptyLine()
    ensures BlankLine("")
  {
  }

  lemma TrailingEmptyLine(ls: seq<string>)
    ensures KeysOf(ls + [""]) == KeysOf(ls)
  {
    EmptyLine();
    assert (ls + [""])[..|ls|] == ls;
  }

  lemma LinesUnlines(ls: seq<string>)
    requires Each(OneLine, ls)
    ensures KeysOf(Lines(Unlines(ls))) == KeysOf(ls)
  {
    TrailingEmptyLine(ls);
    if ls == [] {
      NoCarriageReturns("");
      assert Lines("") == ls + [""];
    } else {
      SplitUnlines(ls);
      NoCarriageReturns(Unlines(ls));
    }
  }

  /** A normal form has the very lines, indents and words of its source. */
  lemma NormaliseKeepsKeys(source: string)
    ensures Normalise(source) == Unlines(MapAll(Render, Keys(source)))
    ensures Keys(Normalise(source)) == Keys(source)
  {
    LinesAreLines(source);
    NormLinesRender(Lines(source));
    KeysOfRenderAll(Keys(source));
    LinesUnlines(MapAll(Render, Keys(source)));
  }

  lemma NormaliseIdempotent(source: string)
    ensures Normalise(Normalise(source)) == Normalise(source)
  {
    NormaliseKeepsKeys(source);
    NormaliseKeepsKeys(Normalise(source));
  }

  /** Two sources collide exactly when their non-blank lines agree one by one on
      the exact indent and on the words after it. */
  lemma SameNormalFormIff(a: string, b: string)
    ensures Normalise(a) == Normalise(b) <==> Keys(a) == Keys(b)
  {
    NormaliseKeepsKeys(a);
    NormaliseKeepsKeys(b);
  }
}
