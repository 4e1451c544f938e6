/** The word wrapper of src/ai_insights.c; the printed characters are the output string. */
module WordWrap {

  type Words = seq<string>
  type Lines = seq<Words>

  predicate Delimiter(c: char) {
    c == ' ' || c == '\t' || c == '\n'
  }

  /** The length of the word at the start of s. */
  function WordLength(s: string): (n: nat)
    ensures n <= |s|
    ensures forall i :: 0 <= i < n ==> !Delimiter(s[i])
    ensures n < |s| ==> Delimiter(s[n])
  {
    if s == "" || Delimiter(s[0]) then 0 else 1 + WordLength(s[1..])
  }

  function WordsOf(s: string): Words
    decreases |s|
  {
    if s == "" then []
    else if Delimiter(s[0]) then WordsOf(s[1..])
    else var n := WordLength(s); [s[..n]] + WordsOf(s[n..])
  }

  /** The words of each paragraph; paragraphs end at newlines. */
  function Paragraphs(s: string): (ps: seq<Words>)
    ensures ps != []
    decreases |s|
  {
    if s == "" then [[]]
    else if s[0] == '\n' then [[]] + Paragraphs(s[1..])
    else if Delimiter(s[0]) then Paragraphs(s[1..])
    else var n := WordLength(s); Attach([s[..n]], Paragraphs(s[n..]))
  }

  /** More words at the front of the first paragraph. */
  function Attach(words: Words, ps: seq<Words>): seq<Words>
    requires ps != []
  {
    [words + ps[0]] + ps[1..]
  }

  // ---- Lines ----

  /** The columns of a line after the indent: the words and the spaces between them. */
  function LineWidth(line: Words): (r: int)
    ensures r >= -1
  {
    if line == [] then -1 else LineWidth(line[..|line| - 1]) + 1 + |line[|line| - 1]|
  }

  /** Puts a word on the last line if it fits there, else on a new line. */
  function Place(lines: Lines, word: string, width: int): Lines {
    var n := |lines| - 1;
    if lines == [] || LineWidth(lines[n]) + 1 + |word| > width then lines + [[word]]
    else lines[..n] + [lines[n] + [word]]
  }

  function Greedy(words: Words, width: int): Lines {
    if words == [] then [] else Place(Greedy(words[..|words| - 1], width), words[|words| - 1], width)
  }

  function Flatten(lines: Lines): Words {
    if lines == [] then [] else Flatten(lines[..|lines| - 1]) + lines[|lines| - 1]
  }

  // ---- Text ----

  function Join(line: Words): string {
    if line == [] then ""
    else if |line| == 1 then line[0]
    else Join(line[..|line| - 1]) + " " + line[|line| - 1]
  }

  function Render(lines: Lines): string {
    if lines == [] then ""
    else if |lines| == 1 then "  " + Join(lines[0])
    else Render(lines[..|lines| - 1]) + "\n  " + Join(lines[|lines| - 1])
  }

  function RenderAll(ps: seq<Words>, width: int): string {
    if ps == [] then ""
    else RenderAll(ps[..|ps| - 1], width) + Render(Greedy(ps[|ps| - 1], width)) + "\n"
  }

  /** What is printed: every paragraph wrapped, with a newline at the end if the last one has words. */
  function Wrapped(ps: seq<Words>, width: int): string
    requires ps != []
  {
    var last := ps[|ps| - 1];
    RenderAll(ps[..|ps| - 1], width) + Render(Greedy(last, width)) + if last == [] then "" else "\n"
  }

  lemma GreedyNext(words: Words, word: string, width: int)
    ensures Greedy(words + [word], width) == Place(Greedy(words, width), word, width)
  {
    assert (words + [word])[..|words|] == words;
  }

  lemma {:induction false} GreedyNonEmpty(words: Words, width: int)
    ensures forall i :: 0 <= i < |Greedy(words, width)| ==> Greedy(words, width)[i] != []
    ensures Greedy(words, width) == [] <==> words == []
  {
    if words == [] {
    } else {
      GreedyNonEmpty(words[..|words| - 1], width);
    }
  }

  lemma LineWidthNext(line: Words, word: string)
    ensures LineWidth(line + [word]) == LineWidth(line) + 1 + |word|
  {
    assert (line + [word])[..|line|] == line;
  }

  /** Whether placing a word starts a line. */
  predicate StartsLine(lines: Lines, word: string, width: int) {
    lines == [] || LineWidth(lines[|lines| - 1]) + 1 + |word| > width
  }

  function LastWidth(lines: Lines): int {
    if lines == [] then -1 else LineWidth(lines[|lines| - 1])
  }

  lemma PlaceMeasures(lines: Lines, word: string, width: int)
    ensures var r := Place(lines, word, width);
            && |r| == (if StartsLine(lines, word, width) then |lines| + 1 else |lines|)
            && LastWidth(r) == (if StartsLine(lines, word, width) then |word| else LastWidth(lines) + 1 + |word|)
  {
    LineWidthNext([], word);
    assert [] + [word] == [word];
    if lines != [] {
      LineWidthNext(lines[|lines| - 1], word);
    }
  }

  lemma JoinNext(line: Words, word: string)
    requires line != []
    ensures Join(line + [word]) == Join(line) + " " + word
  {
    assert (line + [word])[..|line|] == line;
  }

  lemma RenderSplit(lines: Lines, line: Words)
    ensures Render(lines + [line]) == (if lines == [] then "  " else Render(lines) + "\n  ") + Join(line)
  {
    assert (lines + [line])[..|lines|] == lines;
  }

  lemma RenderNewLine(lines: Lines, word: string)
    ensures Render(lines + [[word]]) == if lines == [] then "  " + word else Render(lines) + "\n  " + word
  {
    RenderSplit(lines, [word]);
  }

  lemma RenderSameLine(front: Lines, line: Words, word: string)
    requires line != []
    ensures Render(front + [line + [word]]) == Render(front + [line]) + " " + word
  {
    JoinNext(line, word);
    RenderSplit(front, line + [word]);
    RenderSplit(front, line);
    hide Join, Render;
    var start := if front == [] then "  " else Render(front) + "\n  ";
    assert start + (Join(line) + " " + word) == start + Join(line) + " " + word;
  }

  lemma PlaceIs(lines: Lines, word: string, width: int)
    ensures Place(lines, word, width) ==
            if StartsLine(lines, word, width) then lines + [[word]]
            else lines[..|lines| - 1] + [lines[|lines| - 1] + [word]]
  {
  }

  /** What placing a word prints. */
  lemma RenderPlace(lines: Lines, word: string, width: int)
    requires forall i :: 0 <= i < |lines| ==> lines[i] != []
    ensures StartsLine(lines, word, width) ==>
              Render(Place(lines, word, width)) == if lines == [] then "  " + word else Render(lines) + "\n  " + word
    ensures !StartsLine(lines, word, width) ==>
              lines != [] && Render(Place(lines, word, width)) == Render(lines) + " " + word
  {
    hide Render, Place, StartsLine;
    PlaceIs(lines, word, width);
    StartsLineIs(lines, word, width);
    if StartsLine(lines, word, width) {
      RenderNewLine(lines, word);
    } else {
      var n := |lines| - 1;
      RenderSameLine(lines[..n], lines[n], word);
      assert lines[..n] + [lines[n]] == lines;
    }
  }

  /** At a newline the current paragraph is complete. */
  lemma NewParagraph(done: seq<Words>, cur: Words, ps: seq<Words>)
    requires ps != []
    ensures done + Attach(cur, [[]] + ps) == (done + [cur]) + Attach([], ps)
  {
    assert ([[]] + ps)[1..] == ps;
    assert cur + [] == cur && [] + ps[0] == ps[0];
  }

  lemma AttachTwice(cur: Words, word: string, ps: seq<Words>)
    requires ps != []
    ensures Attach(cur, Attach([word], ps)) == Attach(cur + [word], ps)
  {
    assert cur + ([word] + ps[0]) == cur + [word] + ps[0];
  }

  /** What the loop has printed before position p: the paragraphs that are done, and the lines of the
      current one so far. */
  ghost predicate Printed(text: string, width: int, p: nat, done: seq<Words>, cur: Words,
                          out: string, col: int, atLineStart: bool)
  {
    && p <= |text|
    && Paragraphs(text) == done + Attach(cur, Paragraphs(text[p..]))
    && out == RenderAll(done, width) + Render(Greedy(cur, width))
    && (atLineStart <==> cur == [])
    && (cur != [] ==> col == LastWidth(Greedy(cur, width)))
  }

  lemma NothingPrinted(text: string, width: int)
    ensures Printed(text, width, 0, [], [], "", 0, true)
  {
    var ps := Paragraphs(text);
    assert text[0..] == text;
    assert [] + ps[0] == ps[0];
    assert [] + Attach([], ps) == ps;
  }

  lemma PrintedNewline(text: string, width: int, p: nat, done: seq<Words>, cur: Words,
                       out: string, col: int, atLineStart: bool)
    requires Printed(text, width, p, done, cur, out, col, atLineStart) && p < |text| && text[p] == '\n'
    ensures Printed(text, width, p + 1, done + [cur], [], out + "\n", 0, true)
  {
    hide Greedy, Render;
    assert text[p..][1..] == text[p + 1..];
    NewParagraph(done, cur, Paragraphs(text[p + 1..]));
    assert (done + [cur])[..|done|] == done;
    assert Greedy([], width) == [] && Render([]) == "" by {
      RenderNothing(width);
    }
    assert RenderAll(done + [cur], width) + "" == RenderAll(done + [cur], width);
  }

  lemma RenderNothing(width: int)
    ensures Greedy([], width) == [] && Render([]) == ""
  {
  }

  lemma PrintedBlank(text: string, width: int, p: nat, done: seq<Words>, cur: Words,
                     out: string, col: int, atLineStart: bool)
    requires Printed(text, width, p, done, cur, out, col, atLineStart)
    requires p < |text| && (text[p] == ' ' || text[p] == '\t')
    ensures Printed(text, width, p + 1, done, cur, out, col, atLineStart)
  {
    hide Greedy, Render, RenderAll, LastWidth;
    assert text[p..][1..] == text[p + 1..];
  }

  lemma ParagraphsAtWord(s: string)
    requires s != "" && !Delimiter(s[0])
    ensures var n := WordLength(s); n > 0 && Paragraphs(s) == Attach([s[..n]], Paragraphs(s[n..]))
  {
  }

  /** What the next word of a paragraph adds to the print and to the column. */
  lemma GreedyPrints(cur: Words, word: string, width: int)
    ensures var g, r := Greedy(cur, width), Greedy(cur + [word], width);
            var breaks := cur != [] && LastWidth(g) + 1 + |word| > width;
            && Render(r) == Render(g) + (if cur == [] then "  " else if breaks then "\n  " else " ") + word
            && LastWidth(r) == if cur == [] || breaks then |word| else LastWidth(g) + 1 + |word|
  {
    hide Greedy, Place, Render, StartsLine, LastWidth;
    var g := Greedy(cur, width);
    GreedyNext(cur, word, width);
    GreedyNonEmpty(cur, width);
    RenderPlace(g, word, width);
    PlaceMeasures(g, word, width);
    StartsLineIs(g, word, width);
    RenderNothing(width);
    if cur == [] {
      assert "" + "  " + word == "  " + word;
    }
  }

  lemma StartsLineIs(lines: Lines, word: string, width: int)
    ensures StartsLine(lines, word, width) <==> lines == [] || LastWidth(lines) + 1 + |word| > width
  {
  }

  lemma PrintedWord(text: string, width: int, p: nat, q: nat, done: seq<Words>, cur: Words,
                    out: string, col: int, atLineStart: bool)
    requires Printed(text, width, p, done, cur, out, col, atLineStart)
    requires p < |text| && !Delimiter(text[p]) && q == p + WordLength(text[p..])
    ensures q <= |text|
    ensures var word := text[p..q];
            var breaks := !atLineStart && col + 1 + |word| > width;
            Printed(text, width, q, done, cur + [word],
                    out + (if atLineStart then "  " else if breaks then "\n  " else " ") + word,
                    if atLineStart || breaks then |word| else col + 1 + |word|, false)
  {
    hide Greedy, Render, RenderAll, LastWidth, Attach, WordLength, Paragraphs;
    var rest := text[p..];
    var word := text[p..q];
    ParagraphsAtWord(rest);
    assert rest[..q - p] == word && rest[q - p..] == text[q..];
    AttachTwice(cur, word, Paragraphs(text[q..]));
    GreedyPrints(cur, word, width);
    var gap := if atLineStart then "  " else if col + 1 + |word| > width then "\n  " else " ";
    RenderGap(RenderAll(done, width), Render(Greedy(cur, width)), gap, word);
  }

  lemma RenderGap(a: string, b: string, gap: string, word: string)
    ensures a + (b + gap + word) == a + b + gap + word
  {
  }

  lemma AllPrinted(text: string, width: int, done: seq<Words>, cur: Words, out: string, col: int, atLineStart: bool)
    requires Printed(text, width, |text|, done, cur, out, col, atLineStart)
    ensures out + (if atLineStart then "" else "\n") == Wrapped(Paragraphs(text), width)
  {
    assert text[|text|..] == "";
    assert cur + [] == cur && Attach(cur, [[]]) == [cur];
    assert (done + [cur])[..|done|] == done;
  }

  method PrintWrappedText(text: string, width: int) returns (out: string)
    ensures out == Wrapped(Paragraphs(text), width)
  {
    hide Printed, Wrapped, Paragraphs;
    out := "";
    var col := 0;
    var atLineStart := true;
    var p := 0;
    ghost var done: seq<Words> := [];
    ghost var cur: Words := [];
    NothingPrinted(text, width);
    while p < |text|
      invariant 0 <= p <= |text| && Printed(text, width, p, done, cur, out, col, atLineStart)
      decreases |text| - p
    {
      if text[p] == '\n' {
        PrintedNewline(text, width, p, done, cur, out, col, atLineStart);
        done, cur := done + [cur], [];
        out := out + "\n";
        col := 0;
        atLineStart := true;
        p := p + 1;
        continue;
      }
      if text[p] == ' ' || text[p] == '\t' {
        PrintedBlank(text, width, p, done, cur, out, col, atLineStart);
        p := p + 1;
        continue;
      }
      var start := p;
      ghost var rest := text[p..];
      while p < |text| && text[p] != ' ' && text[p] != '\t' && text[p] != '\n'
        invariant start <= p <= |text| && WordLength(rest) >= p - start
      {
        assert rest[p - start] == text[p];
        p := p + 1;
      }
      var word := text[start..p];
      assert p < |text| ==> rest[p - start] == text[p];
      PrintedWord(text, width, start, p, done, cur, out, col, atLineStart);
      cur := cur + [word];
      if atLineStart {
        out := out + "  ";
        out := out + word;
        col := |word|;
        atLineStart := false;
      } else if col + 1 + |word| > width {
        out := out + "\n  ";
        out := out + word;
        col := |word|;
      } else {
        out := out + " ";
        out := out + word;
        col := col + 1 + |word|;
      }
    }
    AllPrinted(text, width, done, cur, out, col, atLineStart);
    if !atLineStart {
      out := out + "\n";
    }
  }

  // ---- The words survive ----

  ghost predicate IsWord(w: string) {
    w != "" && forall i :: 0 <= i < |w| ==> !Delimiter(w[i])
  }

  ghost predicate AreWords(words: Words) {
    forall i :: 0 <= i < |words| ==> IsWord(words[i])
  }

  ghost predicate HoldWords(lines: Lines) {
    forall i :: 0 <= i < |lines| ==> lines[i] != [] && AreWords(lines[i])
  }

  /** a and b do not run into each other. */
  predicate Apart(a: string, b: string) {
    a == "" || b == "" || Delimiter(a[|a| - 1]) || Delimiter(b[0])
  }

  lemma WordLengthApart(a: string, b: string)
    requires Apart(a, b) && a != "" && !Delimiter(a[0])
    ensures WordLength(a + b) == WordLength(a) > 0
  {
    var n, m := WordLength(a), WordLength(a + b);
    assert forall i :: 0 <= i < |a| ==> (a + b)[i] == a[i];
    assert b != "" ==> (a + b)[|a|] == b[0];
    assert n == |a| ==> !Delimiter(a[|a| - 1]);
  }

  lemma {:induction false} WordsOfApart(a: string, b: string)
    requires Apart(a, b)
    ensures WordsOf(a + b) == WordsOf(a) + WordsOf(b)
    decreases |a|
  {
    if a == "" {
      assert a + b == b;
    } else if Delimiter(a[0]) {
      assert (a + b)[1..] == a[1..] + b;
      WordsOfApart(a[1..], b);
    } else {
      WordLengthApart(a, b);
      var n := WordLength(a);
      assert (a + b)[..n] == a[..n] && (a + b)[n..] == a[n..] + b;
      WordsOfApart(a[n..], b);
    }
  }

  lemma WordsOfWord(w: string)
    requires IsWord(w)
    ensures WordsOf(w) == [w]
  {
    var n := WordLength(w);
    assert n == |w|;
    assert w[..n] == w && w[n..] == "";
  }

  lemma {:induction false} WordsOfJoin(line: Words)
    requires line != [] && AreWords(line)
    ensures WordsOf(Join(line)) == line
  {
    var n := |line| - 1;
    WordsOfWord(line[n]);
    if n == 0 {
    } else {
      WordsOfJoin(line[..n]);
      WordsOfApart(Join(line[..n]) + " ", line[n]);
      WordsOfApart(Join(line[..n]), " ");
    }
  }

  lemma {:induction false} WordsOfRender(lines: Lines)
    requires HoldWords(lines)
    ensures WordsOf(Render(lines)) == Flatten(lines)
  {
    hide Join, WordsOf, Render, AreWords;
    RenderNone();
    if lines == [] {
    } else {
      var n := |lines| - 1;
      assert lines[..n] + [lines[n]] == lines;
      RenderSplit(lines[..n], lines[n]);
      WordsOfJoin(lines[n]);
      SpacesHaveNoWords();
      WordsOfRender(lines[..n]);
      if n > 0 {
        WordsOfApart(Render(lines[..n]) + "\n  ", Join(lines[n]));
        WordsOfApart(Render(lines[..n]), "\n  ");
      } else {
        WordsOfApart("  ", Join(lines[0]));
      }
    }
  }

  lemma RenderNone()
    ensures Render([]) == "" && WordsOf("") == []
  {
  }

  lemma SpacesHaveNoWords()
    ensures WordsOf("  ") == [] && WordsOf("\n  ") == [] && WordsOf("\n") == []
  {
    assert "  "[1..] == " " && " "[1..] == "" && "\n  "[1..] == "  " && "\n"[1..] == "";
  }

  lemma FlattenNext(lines: Lines, line: Words)
    ensures Flatten(lines + [line]) == Flatten(lines) + line
  {
    assert (lines + [line])[..|lines|] == lines;
  }

  lemma FlattenPlace(lines: Lines, word: string, width: int)
    ensures Flatten(Place(lines, word, width)) == Flatten(lines) + [word]
  {
    hide Place, Flatten, StartsLine;
    PlaceIs(lines, word, width);
    StartsLineIs(lines, word, width);
    if StartsLine(lines, word, width) {
      FlattenNext(lines, [word]);
    } else {
      var front, line := lines[..|lines| - 1], lines[|lines| - 1];
      FlattenNext(front, line + [word]);
      FlattenNext(front, line);
      assert front + [line] == lines;
      assert Flatten(front) + (line + [word]) == Flatten(front) + line + [word];
    }
  }

  lemma {:induction false} FlattenGreedy(words: Words, width: int)
    ensures Flatten(Greedy(words, width)) == words
  {
    hide Place;
    if words == [] {
    } else {
      var n := |words| - 1;
      FlattenGreedy(words[..n], width);
      FlattenPlace(Greedy(words[..n], width), words[n], width);
    }
  }

  lemma PlaceKeepsWords(lines: Lines, word: string, width: int)
    requires HoldWords(lines) && IsWord(word)
    ensures HoldWords(Place(lines, word, width))
  {
    hide Place, IsWord;
    PlaceIs(lines, word, width);
    StartsLineIs(lines, word, width);
    assert AreWords([word]);
    if lines != [] {
      assert AreWords(lines[|lines| - 1] + [word]);
    }
  }

  lemma {:induction false} GreedyKeepsWords(words: Words, width: int)
    requires AreWords(words)
    ensures HoldWords(Greedy(words, width))
  {
    hide Place, HoldWords;
    if words == [] {
      NoLines();
    } else {
      var n := |words| - 1;
      GreedyKeepsWords(words[..n], width);
      PlaceKeepsWords(Greedy(words[..n], width), words[n], width);
    }
  }

  lemma NoLines()
    ensures HoldWords([])
  {
  }

  lemma {:induction false} ParagraphsHoldWords(s: string)
    ensures forall i :: 0 <= i < |Paragraphs(s)| ==> AreWords(Paragraphs(s)[i])
    ensures FlattenFront(Paragraphs(s)) == WordsOf(s)
    decreases |s|
  {
    if s == "" {
    } else {
      if Delimiter(s[0]) {
        ParagraphsHoldWords(s[1..]);
        if s[0] == '\n' {
          assert ([[]] + Paragraphs(s[1..]))[1..] == Paragraphs(s[1..]);
        }
      } else {
        var n := WordLength(s);
        ParagraphsHoldWords(s[n..]);
        var ps := Paragraphs(s[n..]);
        assert Attach([s[..n]], ps)[1..] == ps[1..];
        assert [s[..n]] + ps[0] + FlattenFront(ps[1..]) == [s[..n]] + FlattenFront(ps);
      }
    }
  }

  function FlattenFront(ps: seq<Words>): Words {
    if ps == [] then [] else ps[0] + FlattenFront(ps[1..])
  }

  lemma {:induction false} FlattenBothWays(ps: seq<Words>)
    ensures FlattenFront(ps) == Flatten(ps)
  {
    if ps == [] {
    } else {
      FlattenFrontSplit(ps[..|ps| - 1], ps[|ps| - 1]);
      assert ps[..|ps| - 1] + [ps[|ps| - 1]] == ps;
      FlattenBothWays(ps[..|ps| - 1]);
    }
  }

  lemma {:induction false} FlattenFrontSplit(ps: seq<Words>, last: Words)
    ensures FlattenFront(ps + [last]) == FlattenFront(ps) + last
  {
    if ps == [] {
      assert [last][1..] == [];
    } else {
      assert (ps + [last])[1..] == ps[1..] + [last];
      FlattenFrontSplit(ps[1..], last);
    }
  }

  lemma {:induction false} WordsOfRenderAll(ps: seq<Words>, width: int)
    requires forall i :: 0 <= i < |ps| ==> AreWords(ps[i])
    ensures WordsOf(RenderAll(ps, width)) == Flatten(ps)
    ensures RenderAll(ps, width) == "" || RenderAll(ps, width)[|RenderAll(ps, width)| - 1] == '\n'
  {
    if ps == [] {
    } else {
      var n := |ps| - 1;
      var before, par := RenderAll(ps[..n], width), Render(Greedy(ps[n], width));
      WordsOfRenderAll(ps[..n], width);
      GreedyKeepsWords(ps[n], width);
      WordsOfRender(Greedy(ps[n], width));
      FlattenGreedy(ps[n], width);
      WordsOfApart(before, par);
      WordsOfApart(before + par, "\n");
      SpacesHaveNoWords();
    }
  }

  /** Wrapping keeps the words of the text, in order. */
  lemma WrappingKeepsWords(text: string, width: int)
    ensures WordsOf(Wrapped(Paragraphs(text), width)) == WordsOf(text)
  {
    hide Render, AreWords, Greedy, HoldWords, WordsOf;
    var ps := Paragraphs(text);
    var n := |ps| - 1;
    var before, par := RenderAll(ps[..n], width), Render(Greedy(ps[n], width));
    ParagraphsHoldWords(text);
    FlattenBothWays(ps);
    WordsOfRenderAll(ps[..n], width);
    GreedyKeepsWords(ps[n], width);
    WordsOfRender(Greedy(ps[n], width));
    FlattenGreedy(ps[n], width);
    WordsOfApart(before, par);
    WordsOfApart(before + par, "\n");
    SpacesHaveNoWords();
    assert before + par + "" == before + par;
  }

  // ---- No arrangement needs fewer lines ----

  /** A line that may be printed: it fits the width, or is a single word. */
  predicate Admissible(line: Words, width: int) {
    line != [] && (LineWidth(line) <= width || |line| == 1)
  }

  /** A way of breaking the words into admissible lines, in order. */
  ghost predicate Arrangement(lines: Lines, words: Words, width: int) {
    Flatten(lines) == words && forall i :: 0 <= i < |lines| ==> Admissible(lines[i], width)
  }

  lemma PlaceIsAdmissible(lines: Lines, word: string, width: int)
    requires forall i :: 0 <= i < |lines| ==> Admissible(lines[i], width)
    ensures forall i :: 0 <= i < |Place(lines, word, width)| ==> Admissible(Place(lines, word, width)[i], width)
  {
    hide Place, LineWidth;
    PlaceIs(lines, word, width);
    if !StartsLine(lines, word, width) {
      LineWidthNext(lines[|lines| - 1], word);
    }
  }

  lemma {:induction false} GreedyIsArrangement(words: Words, width: int)
    ensures Arrangement(Greedy(words, width), words, width)
  {
    hide Place, Admissible;
    FlattenGreedy(words, width);
    if words == [] {
    } else {
      var n := |words| - 1;
      GreedyIsArrangement(words[..n], width);
      PlaceIsAdmissible(Greedy(words[..n], width), words[n], width);
    }
  }

  /** g uses fewer lines than o, or as many with no more on the last one. */
  predicate Ahead(g: Lines, o: Lines) {
    |g| < |o| || (|g| == |o| && LastWidth(g) <= LastWidth(o))
  }

  /** An arrangement without its last word. */
  lemma Shorten(o: Lines, words: Words, width: int) returns (shorter: Lines)
    requires Arrangement(o, words, width) && words != []
    ensures Arrangement(shorter, words[..|words| - 1], width)
    ensures var word := words[|words| - 1];
            || (o == shorter + [[word]])
            || (shorter != [] && |o| == |shorter|
                && LastWidth(o) == LastWidth(shorter) + 1 + |word| <= width)
  {
    hide Flatten, LineWidth;
    var n, m := |words| - 1, |o| - 1;
    FlattenNone();
    var line := o[m];
    assert o == o[..m] + [line];
    FlattenNext(o[..m], line);
    assert words[n] == line[|line| - 1];
    var start := line[..|line| - 1];
    assert line == start + [words[n]];
    assert words[..n] == Flatten(o[..m]) + start;
    if |line| == 1 {
      shorter := o[..m];
      assert start == [];
    } else {
      shorter := o[..m] + [start];
      FlattenNext(o[..m], start);
      LineWidthNext(start, words[n]);
    }
  }

  lemma FlattenNone()
    ensures Flatten([]) == []
  {
  }

  lemma LastWidthNext(lines: Lines, line: Words)
    ensures LastWidth(lines + [line]) == LineWidth(line)
  {
  }

  lemma WidthOfOne(word: string)
    ensures LineWidth([word]) == |word|
  {
    LineWidthNext([], word);
    assert [] + [word] == [word];
  }

  /** Greedy filling stays ahead of every other arrangement, word by word. */
  lemma {:induction false} GreedyStaysAhead(words: Words, width: int, o: Lines)
    requires Arrangement(o, words, width)
    ensures Ahead(Greedy(words, width), o)
    decreases |words|
  {
    if words == [] {
    } else {
      hide Place, LineWidth, LastWidth, StartsLine, Arrangement;
      var n := |words| - 1;
      var shorter := Shorten(o, words, width);
      var g := Greedy(words[..n], width);
      GreedyStaysAhead(words[..n], width, shorter);
      PlaceMeasures(g, words[n], width);
      StartsLineIs(g, words[n], width);
      if o == shorter + [[words[n]]] {
        LastWidthNext(shorter, [words[n]]);
        WidthOfOne(words[n]);
      }
    }
  }

  /** No admissible arrangement of a paragraph's words in order uses fewer lines. */
  lemma GreedyIsOptimal(words: Words, width: int, other: Lines)
    requires Arrangement(other, words, width)
    ensures Arrangement(Greedy(words, width), words, width)
    ensures |Greedy(words, width)| <= |other|
  {
    GreedyIsArrangement(words, width);
    GreedyStaysAhead(words, width, other);
  }

  // ---- The printed lines ----

  function SplitLines(s: string): (lines: seq<string>)
    ensures lines != []
  {
    if s == "" then [""]
    else
      var rest := SplitLines(s[1..]);
      if s[0] == '\n' then [""] + rest else [[s[0]] + rest[0]] + rest[1..]
  }

  /** An empty line, or an indent of two spaces and then at most `width` characters or a single word. */
  ghost predicate LineFits(line: string, width: int) {
    line == "" || (|line| >= 2 && line[..2] == "  " && (|line| - 2 <= width || IsWord(line[2..])))
  }

  ghost predicate AllFit(s: string, width: int) {
    forall k :: 0 <= k < |SplitLines(s)| ==> LineFits(SplitLines(s)[k], width)
  }

  lemma {:induction false} SplitAtNewline(a: string, b: string)
    ensures SplitLines(a + "\n" + b) == SplitLines(a) + SplitLines(b)
  {
    var s := a + "\n" + b;
    if a == "" {
      assert s[1..] == b;
    } else {
      assert s[1..] == a[1..] + "\n" + b;
      SplitAtNewline(a[1..], b);
    }
  }

  lemma AllFitTogether(a: string, b: string, width: int)
    requires AllFit(a, width) && AllFit(b, width)
    ensures AllFit(a + "\n" + b, width)
  {
    SplitAtNewline(a, b);
  }

  lemma {:induction false} SplitPlain(s: string)
    requires '\n' !in s
    ensures SplitLines(s) == [s]
  {
    if s == "" {
    } else {
      SplitPlain(s[1..]);
      assert [s[0]] + s[1..] == s;
    }
  }

  /** The width of a line is the number of characters printed for it after the indent. */
  lemma {:induction false} JoinWidth(line: Words)
    requires line != []
    ensures |Join(line)| == LineWidth(line)
  {
    var n := |line| - 1;
    if n == 0 {
      WidthOfOne(line[0]);
      assert line == [line[0]];
    } else {
      JoinWidth(line[..n]);
    }
  }

  lemma {:induction false} JoinHasNoNewline(line: Words)
    requires AreWords(line)
    ensures '\n' !in Join(line)
  {
    var n := |line| - 1;
    if n < 0 {
    } else if n == 0 {
      assert IsWord(line[0]);
    } else {
      JoinHasNoNewline(line[..n]);
      assert IsWord(line[n]);
    }
  }

  lemma PrintedLineFits(line: Words, width: int)
    requires line != [] && AreWords(line) && Admissible(line, width)
    ensures AllFit("  " + Join(line), width)
  {
    JoinWidth(line);
    JoinHasNoNewline(line);
    var printed := "  " + Join(line);
    SplitPlain(printed);
    assert printed[..2] == "  " && printed[2..] == Join(line);
    if |line| == 1 {
      assert IsWord(line[0]);
    }
  }

  lemma {:induction false} RenderedLinesFit(lines: Lines, width: int)
    requires HoldWords(lines) && forall i :: 0 <= i < |lines| ==> Admissible(lines[i], width)
    ensures AllFit(Render(lines), width)
  {
    hide Render, Join, AreWords, AllFit;
    if lines == [] {
      RenderNone();
      EmptyFits(width);
    } else {
      var n := |lines| - 1;
      assert lines[..n] + [lines[n]] == lines;
      RenderSplit(lines[..n], lines[n]);
      PrintedLineFits(lines[n], width);
      if n > 0 {
        RenderedLinesFit(lines[..n], width);
        AllFitTogether(Render(lines[..n]), "  " + Join(lines[n]), width);
        assert Render(lines[..n]) + "\n  " + Join(lines[n]) == Render(lines[..n]) + "\n" + ("  " + Join(lines[n]));
      }
    }
  }

  lemma EmptyFits(width: int)
    ensures AllFit("", width)
  {
  }

  /** Everything printed up to the last paragraph's own text. */
  function Body(ps: seq<Words>, width: int): string
    requires ps != []
  {
    RenderAll(ps[..|ps| - 1], width) + Render(Greedy(ps[|ps| - 1], width))
  }

  lemma {:induction false} BodyFits(ps: seq<Words>, width: int)
    requires ps != [] && forall i :: 0 <= i < |ps| ==> AreWords(ps[i])
    ensures AllFit(Body(ps, width), width)
  {
    hide Render, AreWords, AllFit, Greedy, Admissible;
    var n := |ps| - 1;
    var lines := Greedy(ps[n], width);
    GreedyKeepsWords(ps[n], width);
    GreedyIsArrangement(ps[n], width);
    RenderedLinesFit(lines, width);
    if n == 0 {
      assert "" + Render(lines) == Render(lines);
    } else {
      BodyFits(ps[..n], width);
      AllFitTogether(Body(ps[..n], width), Render(lines), width);
    }
  }

  /** Every line printed is empty, or an indent and then at most `width` characters or a single word. */
  lemma PrintedLinesFit(text: string, width: int)
    ensures AllFit(Wrapped(Paragraphs(text), width), width)
  {
    hide Render, AreWords, AllFit, Greedy, RenderAll, Paragraphs;
    var ps := Paragraphs(text);
    ParagraphsHoldWords(text);
    BodyFits(ps, width);
    if ps[|ps| - 1] == [] {
      assert Body(ps, width) + "" == Body(ps, width);
    } else {
      EmptyFits(width);
      AllFitTogether(Body(ps, width), "", width);
      assert Body(ps, width) + "\n" + "" == Body(ps, width) + "\n";
    }
  }
}
