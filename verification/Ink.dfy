/** What a reader sees of a text: its visible characters, which of them stand side by side, and the line
    breaks between them. */
module Ink {

  predicate Visible(c: char) {
    c != ' ' && c != '\t' && c != '\n'
  }

  /** A visible character, whether it follows another one directly, and the newlines since the last one. */
  datatype Mark = Mark(c: char, joined: bool, newlines: nat)

  function InkFrom(s: string, joined: bool, newlines: nat): seq<Mark> {
    if s == "" then []
    else if Visible(s[0]) then [Mark(s[0], joined, newlines)] + InkFrom(s[1..], true, 0)
    else InkFrom(s[1..], false, newlines + if s[0] == '\n' then 1 else 0)
  }

  function InkOf(s: string): seq<Mark> {
    InkFrom(s, false, 0)
  }

  function TailFrom(s: string, newlines: nat): nat {
    if s == "" then newlines
    else if Visible(s[0]) then TailFrom(s[1..], 0)
    else TailFrom(s[1..], newlines + if s[0] == '\n' then 1 else 0)
  }

  /** The newlines after the last visible character. */
  function TailOf(s: string): nat {
    TailFrom(s, 0)
  }

  /** b has the characters of a, separated where they were and nowhere else, with the line breaks of a
      and perhaps single ones at other separations. */
  ghost predicate Keeps(a: seq<Mark>, b: seq<Mark>) {
    && |a| == |b|
    && forall i :: 0 <= i < |a| ==>
         && b[i].c == a[i].c && b[i].joined == a[i].joined
         && (b[i].newlines == a[i].newlines
             || (i > 0 && !a[i].joined && a[i].newlines == 0 && b[i].newlines == 1))
  }

  lemma KeepsTogether(a: seq<Mark>, b: seq<Mark>, a': seq<Mark>, b': seq<Mark>)
    requires Keeps(a, b) && Keeps(a', b')
    ensures Keeps(a + a', b + b')
  {
  }

  /** A run of visible characters, and what follows it. */
  lemma {:induction false} InkOfRun(w: string, rest: string, joined: bool, newlines: nat)
    requires forall i :: 0 <= i < |w| ==> Visible(w[i])
    requires rest == "" || !Visible(rest[0])
    ensures w != "" ==> InkFrom(w + rest, joined, newlines) == InkFrom(w, joined, newlines) + InkFrom(rest, false, 0)
    ensures w != "" ==> TailFrom(w + rest, newlines) == TailFrom(rest, 0)
  {
    if w == "" {
    } else {
      assert (w + rest)[1..] == w[1..] + rest;
      InkOfRun(w[1..], rest, true, 0);
      if w[1..] == "" {
        assert w[1..] + rest == rest;
      }
    }
  }
}
