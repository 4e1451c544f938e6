/** The word wrapper of src/ai_insights.c keeps its text: a reader sees the same characters, side by side
    or apart as before. */
module KeptText {
  import opened Ink
  import opened WordWrap

  // ---- The text is kept ----

  function WordsInk(words: Words, newlines: nat): seq<Mark> {
    if words == [] then [] else InkFrom(words[0], false, newlines) + WordsInk(words[1..], 0)
  }

  function ParagraphsInk(ps: seq<Words>, newlines: nat): seq<Mark> {
    if ps == [] then []
    else WordsInk(ps[0], newlines) + ParagraphsInk(ps[1..], (if ps[0] == [] then newlines else 0) + 1)
  }

  function ParagraphsTail(ps: seq<Words>, newlines: nat): nat
    requires ps != []
  {
    var here := if ps[0] == [] then newlines else 0;
    if |ps| == 1 then here else ParagraphsTail(ps[1..], here + 1)
  }

  lemma DelimitersAreInvisible()
    ensures forall c :: Visible(c) <==> !Delimiter(c)
  {
  }

  /** The paragraphs of a text say what is seen of it. */
  lemma {:induction false} InkOfParagraphs(s: string, newlines: nat)
    ensures InkFrom(s, false, newlines) == ParagraphsInk(Paragraphs(s), newlines)
    ensures TailFrom(s, newlines) == ParagraphsTail(Paragraphs(s), newlines)
    decreases |s|
  {
    hide InkFrom, TailFrom, ParagraphsInk, ParagraphsTail, WordLength;
    DelimitersAreInvisible();
    if s == "" {
      NothingSeen(newlines);
    } else if Delimiter(s[0]) {
      BlankSeen(s, newlines);
      if s[0] == '\n' {
        InkOfParagraphs(s[1..], newlines + 1);
        FirstIsEmpty(Paragraphs(s[1..]), newlines);
      } else {
        InkOfParagraphs(s[1..], newlines);
      }
    } else {
      var n := WordLength(s);
      ParagraphsAtWord(s);
      WordIsARun(s);
      assert s[..n] + s[n..] == s;
      InkOfRun(s[..n], s[n..], false, newlines);
      InkOfParagraphs(s[n..], 0);
      AttachInk(s[..n], Paragraphs(s[n..]), newlines);
    }
  }

  lemma NothingSeen(newlines: nat)
    ensures InkFrom("", false, newlines) == ParagraphsInk([[]], newlines) == []
    ensures TailFrom("", newlines) == ParagraphsTail([[]], newlines) == newlines
  {
  }

  lemma BlankSeen(s: string, newlines: nat)
    requires s != "" && !Visible(s[0])
    ensures var more := newlines + if s[0] == '\n' then 1 else 0;
            && InkFrom(s, false, newlines) == InkFrom(s[1..], false, more)
            && TailFrom(s, newlines) == TailFrom(s[1..], more)
  {
  }

  lemma FirstIsEmpty(ps: seq<Words>, newlines: nat)
    requires ps != []
    ensures ParagraphsInk([[]] + ps, newlines) == ParagraphsInk(ps, newlines + 1)
    ensures ParagraphsTail([[]] + ps, newlines) == ParagraphsTail(ps, newlines + 1)
  {
    assert ([[]] + ps)[1..] == ps;
  }

  lemma WordIsARun(s: string)
    requires s != "" && !Delimiter(s[0])
    ensures var n := WordLength(s);
            && (forall i :: 0 <= i < n ==> Visible(s[..n][i]))
            && (s[n..] == "" || !Visible(s[n..][0]))
  {
  }

  lemma AttachInk(w: string, ps: seq<Words>, newlines: nat)
    requires ps != []
    ensures ParagraphsInk(Attach([w], ps), newlines) == InkFrom(w, false, newlines) + ParagraphsInk(ps, 0)
    ensures ParagraphsTail(Attach([w], ps), newlines) == ParagraphsTail(ps, 0)
  {
    hide InkFrom;
    var qs := Attach([w], ps);
    assert qs[1..] == ps[1..] && qs[0] == [w] + ps[0];
    assert ([w] + ps[0])[1..] == ps[0];
  }

  lemma {:induction false} ParagraphsAtNewline(a: string, b: string)
    ensures Paragraphs(a + "\n" + b) == Paragraphs(a) + Paragraphs(b)
    decreases |a|
  {
    var s := a + "\n" + b;
    if a == "" {
      assert s[1..] == b;
    } else if Delimiter(a[0]) {
      assert s[1..] == a[1..] + "\n" + b;
      ParagraphsAtNewline(a[1..], b);
    } else {
      var n := WordLength(a);
      assert s == a + ("\n" + b);
      WordLengthApart(a, "\n" + b);
      assert s[..n] == a[..n] && s[n..] == a[n..] + "\n" + b;
      ParagraphsAtNewline(a[n..], b);
      AttachFirst(a[..n], Paragraphs(a[n..]), Paragraphs(b));
    }
  }

  lemma AttachFirst(w: string, ps: seq<Words>, qs: seq<Words>)
    requires ps != []
    ensures Attach([w], ps + qs) == Attach([w], ps) + qs
  {
  }

  lemma {:induction false} OneParagraph(s: string)
    requires '\n' !in s
    ensures Paragraphs(s) == [WordsOf(s)]
    decreases |s|
  {
    if s == "" {
    } else if Delimiter(s[0]) {
      OneParagraph(s[1..]);
    } else {
      OneParagraph(s[WordLength(s)..]);
    }
  }

  lemma PrintedLineIsALine(line: Words)
    requires line != [] && AreWords(line)
    ensures Paragraphs("  " + Join(line)) == [line]
  {
    hide Join, AreWords, WordsOf, Paragraphs;
    JoinHasNoNewline(line);
    OneParagraph("  " + Join(line));
    WordsOfJoin(line);
    SpacesHaveNoWords();
    WordsOfApart("  ", Join(line));
    assert [] + line == line;
  }

  lemma {:induction false} RenderedLinesAreLines(lines: Lines)
    requires lines != [] && HoldWords(lines)
    ensures Paragraphs(Render(lines)) == lines
  {
    hide Render, Join, AreWords, Paragraphs;
    var n := |lines| - 1;
    assert lines[..n] + [lines[n]] == lines;
    RenderSplit(lines[..n], lines[n]);
    PrintedLineIsALine(lines[n]);
    if n == 0 {
    } else {
      RenderedLinesAreLines(lines[..n]);
      ParagraphsAtNewline(Render(lines[..n]), "  " + Join(lines[n]));
      assert Render(lines[..n]) + "\n  " + Join(lines[n]) == Render(lines[..n]) + "\n" + ("  " + Join(lines[n]));
    }
  }

  /** The lines of a paragraph, of which an empty one has one. */
  function LinesOf(words: Words, width: int): Lines {
    if words == [] then [[]] else Greedy(words, width)
  }

  function AllLines(ps: seq<Words>, width: int): Lines {
    if ps == [] then [] else LinesOf(ps[0], width) + AllLines(ps[1..], width)
  }

  lemma {:induction false} AllLinesNext(ps: seq<Words>, words: Words, width: int)
    ensures AllLines(ps + [words], width) == AllLines(ps, width) + LinesOf(words, width)
  {
    hide LinesOf;
    if ps == [] {
      assert ([] + [words])[1..] == [];
      assert AllLines([words], width) == LinesOf(words, width) + [];
    } else {
      assert (ps + [words])[1..] == ps[1..] + [words];
      AllLinesNext(ps[1..], words, width);
    }
  }

  lemma LinesAreRendered(words: Words, width: int)
    requires AreWords(words)
    ensures Paragraphs(Render(Greedy(words, width))) == LinesOf(words, width)
  {
    hide AreWords, HoldWords, Render, Greedy;
    GreedyNonEmpty(words, width);
    GreedyKeepsWords(words, width);
    if words == [] {
      RenderNone();
      assert Paragraphs("") == [[]];
    } else {
      RenderedLinesAreLines(Greedy(words, width));
    }
  }

  lemma {:induction false} BodyHasLines(ps: seq<Words>, width: int)
    requires ps != [] && forall i :: 0 <= i < |ps| ==> AreWords(ps[i])
    ensures Paragraphs(Body(ps, width)) == AllLines(ps, width)
  {
    hide Render, AreWords, Greedy, Paragraphs, LinesOf, AllLines;
    var n := |ps| - 1;
    var printed := Render(Greedy(ps[n], width));
    LinesAreRendered(ps[n], width);
    AllLinesNext(ps[..n], ps[n], width);
    assert ps[..n] + [ps[n]] == ps;
    if n == 0 {
      assert "" + printed == printed;
      NoParagraphs(width);
    } else {
      BodyHasLines(ps[..n], width);
      ParagraphsAtNewline(Body(ps[..n], width), printed);
    }
  }

  lemma NoParagraphs(width: int)
    ensures AllLines([], width) == [] && RenderAll([], width) == ""
  {
  }

  /** The printed text has the lines of all paragraphs, and an empty one at the end unless it has it
      already. */
  lemma WrappedHasLines(ps: seq<Words>, width: int)
    requires ps != [] && forall i :: 0 <= i < |ps| ==> AreWords(ps[i])
    ensures Paragraphs(Wrapped(ps, width)) ==
            PrintedLines(ps, width)
  {
    hide Render, AreWords, Greedy, Paragraphs, AllLines, RenderAll;
    BodyHasLines(ps, width);
    if ps[|ps| - 1] == [] {
      assert Body(ps, width) + "" == Body(ps, width);
    } else {
      ParagraphsAtNewline(Body(ps, width), "");
      EmptyParagraph();
      assert Body(ps, width) + "\n" + "" == Body(ps, width) + "\n";
    }
  }

  lemma EmptyParagraph()
    ensures Paragraphs("") == [[]]
  {
  }

  // ---- Lines against paragraphs ----

  /** Lines that hold words, as marks: a break before each but the first. */
  function LinesInk(lines: Lines, newlines: nat): seq<Mark> {
    if lines == [] then [] else WordsInk(lines[0], newlines) + LinesInk(lines[1..], 1)
  }

  lemma InkStep(ps: seq<Words>, newlines: nat)
    requires ps != []
    ensures var here := if ps[0] == [] then newlines else 0;
            && ParagraphsInk(ps, newlines) == WordsInk(ps[0], newlines) + ParagraphsInk(ps[1..], here + 1)
            && ParagraphsTail(ps, newlines) == if ps[1..] == [] then here else ParagraphsTail(ps[1..], here + 1)
  {
  }

  lemma LinesStep(lines: Lines, newlines: nat)
    requires lines != []
    ensures LinesInk(lines, newlines) == WordsInk(lines[0], newlines) + LinesInk(lines[1..], 1)
    ensures LinesInk([], 1) == []
  {
  }

  lemma {:induction false} LinesFirst(lines: Lines, rest: seq<Words>, newlines: nat)
    requires lines != [] && forall i :: 0 <= i < |lines| ==> lines[i] != []
    ensures ParagraphsInk(lines + rest, newlines) == LinesInk(lines, newlines) + ParagraphsInk(rest, 1)
    ensures ParagraphsTail(lines + rest, newlines) == if rest == [] then 0 else ParagraphsTail(rest, 1)
  {
    hide WordsInk, ParagraphsInk, ParagraphsTail, LinesInk;
    var all, more := lines + rest, lines[1..] + rest;
    assert all[1..] == more && all[0] == lines[0];
    InkStep(all, newlines);
    LinesStep(lines, newlines);
    var first, last := WordsInk(lines[0], newlines), ParagraphsInk(rest, 1);
    if |lines| == 1 {
      assert lines[1..] == [] && more == rest;
      assert first + [] == first;
    } else {
      LinesFirst(lines[1..], rest, 1);
      assert first + (LinesInk(lines[1..], 1) + last) == first + LinesInk(lines[1..], 1) + last;
    }
  }

  lemma {:induction false} WordsInkApart(a: Words, b: Words, newlines: nat)
    ensures WordsInk(a + b, newlines) == WordsInk(a, newlines) + WordsInk(b, if a == [] then newlines else 0)
  {
    if a == [] {
      assert a + b == b;
    } else {
      hide InkFrom;
      assert (a + b)[1..] == a[1..] + b;
      WordsInkApart(a[1..], b, 0);
    }
  }

  function FlattenAll(lines: Lines): Words {
    if lines == [] then [] else lines[0] + FlattenAll(lines[1..])
  }

  lemma {:induction false} FlattenAllIsFlatten(lines: Lines)
    ensures FlattenAll(lines) == Flatten(lines)
  {
    if lines == [] {
    } else {
      var n := |lines| - 1;
      FlattenAllIsFlatten(lines[..n]);
      FlattenAllNext(lines[..n], lines[n]);
      assert lines[..n] + [lines[n]] == lines;
    }
  }

  lemma {:induction false} FlattenAllNext(lines: Lines, line: Words)
    ensures FlattenAll(lines + [line]) == FlattenAll(lines) + line
  {
    if lines == [] {
      assert ([] + [line])[1..] == [];
    } else {
      assert (lines + [line])[1..] == lines[1..] + [line];
      FlattenAllNext(lines[1..], line);
    }
  }

  lemma KeepsItself(a: seq<Mark>)
    ensures Keeps(a, a)
  {
  }

  lemma BreakIsKept(line: Words)
    requires line != [] && AreWords(line)
    ensures var a, b := WordsInk(line, 0), WordsInk(line, 1);
            |a| == |b| > 0 && a[1..] == b[1..] && b[0] == a[0].(newlines := 1)
            && !a[0].joined && a[0].newlines == 0
  {
    DelimitersAreInvisible();
    assert IsWord(line[0]);
  }

  /** Breaking the words of a paragraph into lines adds single breaks between words. */
  lemma {:induction false} LinesKeepWords(lines: Lines, newlines: nat)
    requires HoldWords(lines)
    ensures Keeps(WordsInk(FlattenAll(lines), newlines), LinesInk(lines, newlines))
    ensures lines != [] ==>
              Keeps(WordsInk(FlattenAll(lines), newlines), WordsInk(lines[0], newlines) + LinesInk(lines[1..], 1))
  {
    if lines == [] {
    } else {
      hide WordsInk, AreWords;
      var rest := lines[1..];
      var first := WordsInk(lines[0], newlines);
      WordsInkApart(lines[0], FlattenAll(rest), newlines);
      if rest == [] {
        NoLinesInk();
        KeepsItself(first);
      } else {
        LinesKeepWords(rest, 0);
        assert FlattenAll(rest) == rest[0] + FlattenAll(rest[1..]);
        BreakIsKept(rest[0]);
        FirstBreak(WordsInk(FlattenAll(rest), 0), WordsInk(rest[0], 0), WordsInk(rest[0], 1), LinesInk(rest[1..], 1));
        KeepsItself(first);
        BreakIsKept(lines[0]);
        FirstIsThere(lines[0], newlines);
        KeepsAfter(first, WordsInk(FlattenAll(rest), 0), LinesInk(rest, 1));
      }
    }
  }

  lemma NoLinesInk()
    ensures FlattenAll([]) == [] && LinesInk([], 1) == [] && WordsInk([], 0) == []
  {
  }

  lemma FirstIsThere(line: Words, newlines: nat)
    requires line != [] && AreWords(line)
    ensures WordsInk(line, newlines) != []
  {
    DelimitersAreInvisible();
    assert IsWord(line[0]);
  }

  /** Like Keeps, where a break may come before the first mark too. */
  ghost predicate KeepsRest(a: seq<Mark>, b: seq<Mark>) {
    && |a| == |b|
    && forall i :: 0 <= i < |a| ==>
         && b[i].c == a[i].c && b[i].joined == a[i].joined
         && (b[i].newlines == a[i].newlines || (!a[i].joined && a[i].newlines == 0 && b[i].newlines == 1))
  }

  lemma FirstBreak(all: seq<Mark>, a: seq<Mark>, b: seq<Mark>, rest: seq<Mark>)
    requires Keeps(all, a + rest)
    requires |a| == |b| > 0 && a[1..] == b[1..] && b[0] == a[0].(newlines := 1) && !a[0].joined && a[0].newlines == 0
    ensures KeepsRest(all, b + rest)
  {
    forall i | 0 <= i < |all|
      ensures (b + rest)[i].c == all[i].c && (b + rest)[i].joined == all[i].joined
      ensures (b + rest)[i].newlines == all[i].newlines
              || (!all[i].joined && all[i].newlines == 0 && (b + rest)[i].newlines == 1)
    {
      if 0 < i < |a| {
        assert a[1..][i - 1] == b[1..][i - 1];
      }
      assert (a + rest)[i].c == all[i].c;
    }
  }

  lemma KeepsAfter(first: seq<Mark>, a: seq<Mark>, b: seq<Mark>)
    requires first != [] && KeepsRest(a, b)
    ensures Keeps(first + a, first + b)
  {
  }

  /** The lines of all paragraphs, and of what the last newline adds. */
  function PrintedLines(ps: seq<Words>, width: int): Lines
    requires ps != []
  {
    AllLines(ps, width) + if ps[|ps| - 1] == [] then [] else [[]]
  }

  lemma PrintedStep(ps: seq<Words>, width: int)
    requires ps != []
    ensures PrintedLines(ps, width) ==
            LinesOf(ps[0], width) +
            if ps[1..] != [] then PrintedLines(ps[1..], width) else if ps[0] == [] then [] else [[]]
  {
    hide LinesOf;
    if ps[1..] == [] {
      assert AllLines(ps, width) == LinesOf(ps[0], width) + [];
    }
  }

  ghost predicate LinesKeep(ps: seq<Words>, lines: seq<Words>, newlines: nat)
    requires ps != []
  {
    && lines != []
    && Keeps(ParagraphsInk(ps, newlines), ParagraphsInk(lines, newlines))
    && ParagraphsTail(lines, newlines) == if ps[|ps| - 1] == [] then ParagraphsTail(ps, newlines) else 1
  }

  lemma EmptyFirst(rest: seq<Words>, lines: seq<Words>, newlines: nat)
    requires rest != [] && LinesKeep(rest, lines, newlines + 1)
    ensures LinesKeep([[]] + rest, [[]] + lines, newlines)
  {
    hide ParagraphsInk, ParagraphsTail, Keeps;
    FirstIsEmpty(rest, newlines);
    FirstIsEmpty(lines, newlines);
  }

  lemma WordsFirst(p: Words, rest: seq<Words>, lines: Lines, more: seq<Words>, newlines: nat)
    requires p != [] && lines != [] && HoldWords(lines) && FlattenAll(lines) == p
    requires if rest == [] then more == [[]] else LinesKeep(rest, more, 1)
    ensures LinesKeep([p] + rest, lines + more, newlines)
  {
    LinesKeepWords(lines, newlines);
    LinesHoldWords(lines);
    hide ParagraphsInk, ParagraphsTail, Keeps, WordsInk, LinesInk, HoldWords;
    LinesFirst(lines, more, newlines);
    InkStep([p] + rest, newlines);
    assert ([p] + rest)[1..] == rest;
    LastInk(1);
    if rest == [] {
      NothingKept();
    }
    KeepsTogether(WordsInk(p, newlines), LinesInk(lines, newlines), ParagraphsInk(rest, 1), ParagraphsInk(more, 1));
  }

  lemma LinesHoldWords(lines: Lines)
    requires HoldWords(lines)
    ensures forall i :: 0 <= i < |lines| ==> lines[i] != []
  {
  }

  lemma NothingKept()
    ensures Keeps([], [])
  {
  }

  lemma {:induction false} AllLinesKeep(ps: seq<Words>, width: int, newlines: nat)
    requires ps != [] && forall i :: 0 <= i < |ps| ==> AreWords(ps[i])
    ensures LinesKeep(ps, PrintedLines(ps, width), newlines)
  {
    hide AreWords, HoldWords, Greedy, LinesKeep, PrintedLines;
    var p, rest := ps[0], ps[1..];
    PrintedStep(ps, width);
    assert ps == [p] + rest;
    if p == [] {
      if rest == [] {
        EmptyKeeps(newlines);
        assert PrintedLines(ps, width) == [[]];
      } else {
        AllLinesKeep(rest, width, newlines + 1);
        EmptyFirst(rest, PrintedLines(rest, width), newlines);
      }
    } else {
      var lines := Greedy(p, width);
      GreedyNonEmpty(p, width);
      GreedyKeepsWords(p, width);
      FlattenGreedy(p, width);
      FlattenAllIsFlatten(lines);
      if rest == [] {
        WordsFirst(p, [], lines, [[]], newlines);
      } else {
        AllLinesKeep(rest, width, 1);
        WordsFirst(p, rest, lines, PrintedLines(rest, width), newlines);
      }
    }
  }

  lemma EmptyKeeps(newlines: nat)
    ensures LinesKeep([[]], [[]], newlines)
  {
    KeepsItself(ParagraphsInk([[]], newlines));
  }

  lemma LastInk(newlines: nat)
    ensures ParagraphsInk([[]], newlines) == [] && ParagraphsInk([], newlines) == []
    ensures ParagraphsTail([[]], newlines) == newlines
  {
  }

  /** The printed text keeps the visible characters of the text, which of them stand side by side, and
      its line breaks, and adds single line breaks between words, and one at the end if there is none. */
  lemma WrappingKeepsText(text: string, width: int)
    ensures var out := Wrapped(Paragraphs(text), width);
            && Keeps(InkOf(text), InkOf(out))
            && TailOf(out) == if InkOf(text) != [] && TailOf(text) == 0 then 1 else TailOf(text)
  {
    hide Wrapped, Paragraphs, AreWords, PrintedLines, Keeps, ParagraphsInk, ParagraphsTail, InkFrom, TailFrom;
    var ps := Paragraphs(text);
    ParagraphsHoldWords(text);
    InkOfParagraphs(text, 0);
    InkOfParagraphs(Wrapped(ps, width), 0);
    WrappedHasLines(ps, width);
    AllLinesKeep(ps, width, 0);
    TailSaysLast(ps, 0);
  }

  /** Whether the last paragraph has words. */
  lemma {:induction false} TailSaysLast(ps: seq<Words>, newlines: nat)
    requires ps != [] && forall i :: 0 <= i < |ps| ==> AreWords(ps[i])
    ensures ps[|ps| - 1] != [] ==> ParagraphsTail(ps, newlines) == 0 && ParagraphsInk(ps, newlines) != []
    ensures ps[|ps| - 1] == [] && ParagraphsTail(ps, newlines) == 0 ==>
              newlines == 0 && ParagraphsInk(ps, newlines) == []
  {
    hide AreWords, WordsInk;
    if ps[0] != [] {
      FirstIsThere(ps[0], newlines);
    } else {
      NoLinesInk();
      NothingInked(newlines);
    }
    if |ps| == 1 {
      assert ps[1..] == [];
    } else {
      TailSaysLast(ps[1..], (if ps[0] == [] then newlines else 0) + 1);
    }
  }

  lemma NothingInked(newlines: nat)
    ensures WordsInk([], newlines) == []
  {
  }
}
