/** The JSON string escaper and text extractor of src/ai_insights.c. A C string is the sequence of its
    characters before the terminator, one character a byte. */
module JsonText {

  /** The key the extractor looks for, with the opening quote of its value. */
  function Pattern(): string {
    "\"text\":\""
  }

  // ---- What the escaper writes ----

  function Escape(c: char): string {
    if c == '\"' then "\\\""
    else if c == '\\' then "\\\\"
    else if c == '\n' then "\\n"
    else if c == '\r' then "\\r"
    else if c == '\t' then "\\t"
    else if c < ' ' then " "
    else [c]
  }

  function EscapeAll(s: string): string {
    if s == "" then "" else EscapeAll(s[..|s| - 1]) + Escape(s[|s| - 1])
  }

  /** The escaper stops once fewer than seven bytes of the buffer are left. */
  predicate Goes(s: string, size: nat, k: nat)
    requires k <= |s|
  {
    |EscapeAll(s[..k])| + 6 < size
  }

  function FitFrom(s: string, size: nat, i: nat): (n: nat)
    requires i <= |s|
    ensures i <= n <= |s|
    ensures forall k :: i <= k < n ==> Goes(s, size, k)
    ensures n < |s| ==> !Goes(s, size, n)
    decreases |s| - i
  {
    if i == |s| || !Goes(s, size, i) then i else FitFrom(s, size, i + 1)
  }

  /** How many characters of s are escaped into a buffer of this size. */
  function Fit(s: string, size: nat): (n: nat)
    ensures n <= |s|
  {
    FitFrom(s, size, 0)
  }

  function Escaped(s: string, size: nat): string {
    EscapeAll(s[..Fit(s, size)])
  }

  method JsonEscape(src: string, buf: array<char>) returns (written: int)
    requires buf.Length >= 1
    modifies buf
    ensures 0 <= written < buf.Length && buf[written] == '\0'
    ensures buf[..written] == Escaped(src, buf.Length)
  {
    var pos := 0;
    var i := 0;
    while i < |src| && pos + 6 < buf.Length
      invariant 0 <= i <= |src| && 0 <= pos < buf.Length
      invariant buf[..pos] == EscapeAll(src[..i])
      invariant Fit(src, buf.Length) == FitFrom(src, buf.Length, i)
      decreases |src| - i
    {
      var c := src[i];
      ghost var done := buf[..pos];
      assert src[..i + 1][..i] == src[..i];
      if c == '\"' || c == '\\' || c == '\n' || c == '\r' || c == '\t' {
        buf[pos] := '\\';
        buf[pos + 1] := if c == '\n' then 'n' else if c == '\r' then 'r' else if c == '\t' then 't' else c;
        pos := pos + 2;
        assert buf[..pos] == done + Escape(c);
      } else if c < ' ' {
        buf[pos] := ' ';
        pos := pos + 1;
        assert buf[..pos] == done + Escape(c);
      } else {
        buf[pos] := c;
        pos := pos + 1;
        assert buf[..pos] == done + Escape(c);
      }
      i := i + 1;
    }
    buf[pos] := '\0';
    written := pos;
  }

  // ---- What the extractor reads ----

  function Unescape(c: char): char {
    match c
    case 'n' => '\n'
    case 'r' => '\r'
    case 't' => '\t'
    case other => other
  }

  /** The string value at the start of t, cut off after `room` characters. */
  function Decode(t: string, room: nat): string {
    if t == "" || room == 0 || t[0] == '\"' then ""
    else if t[0] != '\\' then [t[0]] + Decode(t[1..], room - 1)
    else if |t| == 1 then ""
    else [Unescape(t[1])] + Decode(t[2..], room - 1)
  }

  predicate At(s: string, pattern: string, k: nat) {
    k + |pattern| <= |s| && s[k..k + |pattern|] == pattern
  }

  /** strstr: the first occurrence from i on, or -1. */
  function IndexFrom(s: string, pattern: string, i: nat): (r: int)
    ensures r == -1 ==> forall k: nat :: i <= k ==> !At(s, pattern, k)
    ensures r != -1 ==> i <= r && At(s, pattern, r) && forall k: nat :: i <= k < r ==> !At(s, pattern, k)
    decreases |s| - i
  {
    if At(s, pattern, i) then i else if i >= |s| then -1 else IndexFrom(s, pattern, i + 1)
  }

  /** The first text value of a document, as far as it fits an output of this size. */
  datatype Extraction = NotFound | Text(value: string)

  function Extract(json: string, size: nat): Extraction
    requires size >= 1
  {
    var k := IndexFrom(json, Pattern(), 0);
    if k < 0 then NotFound else Text(Decode(json[k + |Pattern()|..], size - 1))
  }

  /** The value that starts at `start` is what has been read so far and the value that goes on at `pos`. */
  ghost predicate Decoding(json: string, start: nat, pos: nat, read: string, room: nat) {
    && start <= pos <= |json| && |read| <= room
    && Decode(json[start..], room) == read + Decode(json[pos..], room - |read|)
  }

  lemma DecodingStarts(json: string, start: nat, room: nat)
    requires start <= |json|
    ensures Decoding(json, start, start, "", room)
  {
  }

  lemma DecodingPlain(json: string, start: nat, pos: nat, read: string, room: nat)
    requires Decoding(json, start, pos, read, room)
    requires pos < |json| && |read| < room && json[pos] != '\\' && json[pos] != '\"'
    ensures Decoding(json, start, pos + 1, read + [json[pos]], room)
  {
    var rest := json[pos..];
    assert rest[1..] == json[pos + 1..];
    assert Decode(rest, room - |read|) == [rest[0]] + Decode(rest[1..], room - |read| - 1);
  }

  lemma DecodingEscape(json: string, start: nat, pos: nat, read: string, room: nat)
    requires Decoding(json, start, pos, read, room)
    requires pos + 1 < |json| && |read| < room && json[pos] == '\\'
    ensures Decoding(json, start, pos + 2, read + [Unescape(json[pos + 1])], room)
  {
    hide Unescape;
    var rest := json[pos..];
    assert rest[2..] == json[pos + 2..];
    assert Decode(rest, room - |read|) == [Unescape(rest[1])] + Decode(rest[2..], room - |read| - 1);
  }

  /** The value ends with its quote, with the document, even in an escape, or with the room for it. */
  lemma DecodingEnds(json: string, start: nat, pos: nat, read: string, room: nat)
    requires Decoding(json, start, pos, read, room)
    requires |read| == room || pos == |json| || json[pos] == '\"' || (pos + 1 == |json| && json[pos] == '\\')
    ensures Decode(json[start..], room) == read
  {
  }

  /** The key with the quote that opens its value. */
  predicate KeyAt(json: string, k: nat) {
    k + 8 <= |json| && json[k..k + 8] == "\"text\":\""
  }

  lemma KeyIsPattern(json: string)
    ensures forall k: nat :: At(json, Pattern(), k) <==> KeyAt(json, k)
  {
  }

  method ExtractTextField(json: string, output: array<char>) returns (written: int)
    requires output.Length >= 1
    modifies output
    ensures written == -1 <==> Extract(json, output.Length) == NotFound
    ensures written == -1 <==> forall k: nat :: !KeyAt(json, k)
    ensures written != -1 ==>
              && 0 <= written < output.Length && output[written] == '\0'
              && Extract(json, output.Length) == Text(output[..written])
  {
    hide Decode, Decoding, Unescape;
    KeyIsPattern(json);
    var found := IndexFrom(json, Pattern(), 0);
    if found == -1 {
      return -1;
    }
    var pos := found + |Pattern()|;
    ghost var start := pos;
    ghost var last := pos;
    var i := 0;
    DecodingStarts(json, start, output.Length - 1);
    while pos < |json| && i + 1 < output.Length
      invariant 0 <= last <= pos <= |json| && 0 <= i < output.Length
      invariant pos == last || (pos == |json| == last + 1 && json[last] == '\\')
      invariant Decoding(json, start, last, output[..i], output.Length - 1)
      decreases |json| - pos
    {
      ghost var read := output[..i];
      if json[pos] == '\\' {
        pos := pos + 1;
        if pos < |json| {
          output[i] := Unescape(json[pos]);
          i := i + 1;
          pos := pos + 1;
          DecodingEscape(json, start, last, read, output.Length - 1);
          assert output[..i] == read + [Unescape(json[last + 1])];
          last := pos;
        }
      } else if json[pos] == '\"' {
        break;
      } else {
        output[i] := json[pos];
        i := i + 1;
        pos := pos + 1;
        DecodingPlain(json, start, last, read, output.Length - 1);
        assert output[..i] == read + [json[last]];
        last := pos;
      }
    }
    DecodingEnds(json, start, last, output[..i], output.Length - 1);
    output[i] := '\0';
    written := i;
  }

  // ---- The round trip ----

  /** Control characters without a short escape come back as spaces. */
  function CleanChar(c: char): char {
    if c < ' ' && c != '\n' && c != '\r' && c != '\t' then ' ' else c
  }

  function Clean(s: string): string {
    seq(|s|, i requires 0 <= i < |s| => CleanChar(s[i]))
  }

  lemma {:induction false} EscapeAllFront(c: char, s: string)
    ensures EscapeAll([c] + s) == Escape(c) + EscapeAll(s)
  {
    hide Escape;
    if s == "" {
      assert ([c] + s)[..0] == "";
    } else {
      var k := |s| - 1;
      EscapeAllFront(c, s[..k]);
      assert ([c] + s)[..k + 1] == [c] + s[..k];
    }
  }

  lemma {:induction false} EscapeAllGrows(s: string, i: nat, j: nat)
    requires i <= j <= |s|
    ensures |EscapeAll(s[..i])| <= |EscapeAll(s[..j])|
    decreases j
  {
    if i == j {
    } else {
      assert s[..j][..j - 1] == s[..j - 1];
      EscapeAllGrows(s, i, j - 1);
    }
  }

  /** Nothing is cut off exactly when the buffer still has seven bytes before the last character. */
  lemma WholeSourceFitsExactlyWhen(s: string, size: nat)
    ensures Fit(s, size) == |s| <==> s == "" || |EscapeAll(s[..|s| - 1])| + 6 < size
  {
    var n := Fit(s, size);
    if s != "" && n == |s| {
      assert Goes(s, size, |s| - 1);
    }
    if s != "" && Goes(s, size, |s| - 1) && n < |s| {
      EscapeAllGrows(s, n, |s| - 1);
    }
  }

  // ---- What any string content extracts to ----

  /** An escaped letter gives the character that section 7 of RFC 8259 says, for these six; any other
      one gives itself. */
  predicate EscapeGives(letter: char, c: char) {
    && (letter == '\"' ==> c == '\"')
    && (letter == '\\' ==> c == '\\')
    && (letter == '/' ==> c == '/')
    && (letter == 'n' ==> c == '\n')
    && (letter == 'r' ==> c == '\r')
    && (letter == 't' ==> c == '\t')
    && (letter !in "\"\\/nrt" ==> c == letter)
  }

  /** The content t stands for s, character by character. */
  predicate StandsFor(t: string, s: string) {
    if t == "" then s == ""
    else if s == "" then false
    else if t[0] == '\\' then |t| >= 2 && EscapeGives(t[1], s[0]) && StandsFor(t[2..], s[1..])
    else t[0] != '\"' && s[0] == t[0] && StandsFor(t[1..], s[1..])
  }

  lemma {:induction false} DecodeGives(t: string, s: string, post: string, room: nat)
    requires StandsFor(t, s)
    ensures Decode(t + "\"" + post, room) == s[..if |s| < room then |s| else room]
  {
    hide EscapeGives, Unescape;
    var doc := t + "\"" + post;
    if t == "" {
      assert doc == "\"" + post;
    } else if room == 0 {
    } else if t[0] == '\\' {
      assert doc[2..] == t[2..] + "\"" + post;
      DecodeGives(t[2..], s[1..], post, room - 1);
      LettersAgree(t[1], s[0]);
      PrefixNext(s, room);
    } else {
      assert doc[1..] == t[1..] + "\"" + post;
      DecodeGives(t[1..], s[1..], post, room - 1);
      PrefixNext(s, room);
    }
  }

  lemma LettersAgree(letter: char, c: char)
    requires EscapeGives(letter, c)
    ensures Unescape(letter) == c
  {
  }

  lemma PrefixNext(s: string, room: nat)
    requires s != "" && room > 0
    ensures var n := if |s| - 1 < room - 1 then |s| - 1 else room - 1;
            s[..if |s| < room then |s| else room] == [s[0]] + s[1..][..n]
  {
  }

  /** For every content, every text it stands for, every size of the output, and every document in
      which the key comes no earlier: the extractor gives that text, cut off at the size. */
  lemma ExtractGives(pre: string, t: string, s: string, post: string, outputSize: nat)
    requires outputSize >= 1 && StandsFor(t, s)
    requires var json := pre + "\"text\":\"" + t + "\"" + post;
             forall k: nat :: k < |pre| ==> !KeyAt(json, k)
    ensures Extract(pre + "\"text\":\"" + t + "\"" + post, outputSize) ==
            Text(s[..if |s| < outputSize - 1 then |s| else outputSize - 1])
  {
    var json := pre + "\"text\":\"" + t + "\"" + post;
    hide Decode, StandsFor;
    DecodeGives(t, s, post, outputSize - 1);
    PatternFoundAt(json, |pre|);
    assert json[|pre| + 8..] == t + "\"" + post;
  }

  lemma PatternFoundAt(json: string, n: nat)
    requires KeyAt(json, n) && forall k: nat :: k < n ==> !KeyAt(json, k)
    ensures IndexFrom(json, Pattern(), 0) == n
  {
    KeyIsPattern(json);
  }

  /** Control characters without a short escape come back as spaces, everything else as it was. */
  lemma {:induction false} EscapeStandsFor(s: string)
    ensures StandsFor(EscapeAll(s), Clean(s))
  {
    if s == "" {
    } else {
      hide StandsFor, Escape, CleanChar;
      var rest := EscapeAll(s[1..]);
      assert s == [s[0]] + s[1..];
      EscapeAllFront(s[0], s[1..]);
      EscapeStandsFor(s[1..]);
      CharStandsFor(s[0], rest, Clean(s[1..]));
      assert Clean(s) == [CleanChar(s[0])] + Clean(s[1..]);
    }
  }

  lemma CharStandsFor(c: char, rest: string, text: string)
    requires StandsFor(rest, text)
    ensures StandsFor(Escape(c) + rest, [CleanChar(c)] + text)
  {
    var t := Escape(c) + rest;
    assert ([CleanChar(c)] + text)[1..] == text;
    if |Escape(c)| == 2 {
      assert t[2..] == rest;
    } else {
      assert t[1..] == rest;
    }
  }

  /** What was escaped and is extracted again is the source, with control characters other than
      newline, return and tab as spaces, cut off where the escaper's buffer or the output was full. */
  ghost predicate ComesBack(r: Extraction, src: string, size: nat, outputSize: nat)
    requires outputSize >= 1
  {
    var n := Fit(src, size);
    && r.Text?
    && |r.value| == (if n < outputSize - 1 then n else outputSize - 1)
    && forall i :: 0 <= i < |r.value| ==>
         r.value[i] == if src[i] < ' ' && src[i] != '\n' && src[i] != '\r' && src[i] != '\t' then ' ' else src[i]
  }

  /** In every document in which the key comes no earlier, for every source and all buffer sizes. */
  lemma RoundTrip(src: string, size: nat, pre: string, post: string, outputSize: nat)
    requires size >= 1 && outputSize >= 1
    requires var json := pre + "\"text\":\"" + Escaped(src, size) + "\"" + post;
             forall k: nat :: k < |pre| ==> !KeyAt(json, k)
    ensures ComesBack(Extract(pre + "\"text\":\"" + Escaped(src, size) + "\"" + post, outputSize),
                      src, size, outputSize)
  {
    hide Extract, Fit, StandsFor, EscapeAll;
    EscapeStandsFor(src[..Fit(src, size)]);
    ExtractGives(pre, Escaped(src, size), Clean(src[..Fit(src, size)]), post, outputSize);
  }

  /** At the start of a document there is nothing to assume. */
  lemma EscapeThenExtract(src: string, size: nat, post: string, outputSize: nat)
    requires size >= 1 && outputSize >= 1
    ensures ComesBack(Extract("\"text\":\"" + Escaped(src, size) + "\"" + post, outputSize), src, size, outputSize)
  {
    hide Extract, Escaped, ComesBack;
    RoundTrip(src, size, "", post, outputSize);
    assert "" + "\"text\":\"" + Escaped(src, size) + "\"" + post == "\"text\":\"" + Escaped(src, size) + "\"" + post;
  }

  // ---- The output is JSON ----

  predicate Hex(c: char) {
    '0' <= c <= '9' || 'a' <= c <= 'f' || 'A' <= c <= 'F'
  }

  /** The content of a string by section 7 of RFC 8259: unescaped characters other than quotes,
      backslashes and controls, and complete escapes. */
  predicate ValidContent(t: string) {
    if t == "" then true
    else if t[0] != '\\' then t[0] != '\"' && t[0] >= ' ' && ValidContent(t[1..])
    else
      |t| >= 2 &&
      if t[1] == 'u' then |t| >= 6 && Hex(t[2]) && Hex(t[3]) && Hex(t[4]) && Hex(t[5]) && ValidContent(t[6..])
      else t[1] in "\"\\/bfnrt" && ValidContent(t[2..])
  }

  lemma EscapeIsValid(c: char, rest: string)
    requires ValidContent(rest)
    ensures ValidContent(Escape(c) + rest)
  {
    var t := Escape(c) + rest;
    if |Escape(c)| == 2 {
      assert t[2..] == rest;
    } else {
      assert t[1..] == rest;
    }
  }

  /** No escape is cut in half, whatever the buffer size. */
  lemma {:induction false} EscapeAllIsValid(s: string)
    ensures ValidContent(EscapeAll(s))
  {
    if s == "" {
    } else {
      hide Escape, ValidContent;
      assert s == [s[0]] + s[1..];
      EscapeAllFront(s[0], s[1..]);
      EscapeAllIsValid(s[1..]);
      EscapeIsValid(s[0], EscapeAll(s[1..]));
    }
  }

  ghost predicate QuotesEscaped(t: string) {
    forall k :: 0 <= k < |t| && t[k] == '\"' ==> k > 0 && t[k - 1] == '\\'
  }

  lemma {:induction false} EscapeAllEscapesQuotes(s: string)
    ensures QuotesEscaped(EscapeAll(s))
  {
    hide Escape, QuotesEscaped;
    if s == "" {
      NothingToEscape();
    } else {
      EscapeAllEscapesQuotes(s[..|s| - 1]);
      EscapeEscapesQuote(s[|s| - 1]);
      EscapedTogether(EscapeAll(s[..|s| - 1]), Escape(s[|s| - 1]));
    }
  }

  lemma NothingToEscape()
    ensures QuotesEscaped("")
  {
  }

  lemma EscapeEscapesQuote(c: char)
    ensures QuotesEscaped(Escape(c))
  {
  }

  lemma EscapedTogether(t: string, e: string)
    requires QuotesEscaped(t) && QuotesEscaped(e)
    ensures QuotesEscaped(t + e)
  {
  }

  lemma PatternQuotes(t: string, k: nat)
    requires At(t, Pattern(), k)
    ensures k + 5 < |t| && t[k + 5] == '\"' && t[k + 4] == 't'
  {
    assert t[k + 5] == t[k..k + |Pattern()|][5];
    assert t[k + 4] == t[k..k + |Pattern()|][4];
  }

  /** Escaped text never contains the pattern the extractor looks for. */
  lemma EscapedHidesPattern(s: string, size: nat, k: nat)
    ensures !At(Escaped(s, size), Pattern(), k)
  {
    var t := Escaped(s, size);
    EscapeAllEscapesQuotes(s[..Fit(s, size)]);
    if At(t, Pattern(), k) {
      PatternQuotes(t, k);
    }
  }

  // ---- What the standard says the content stands for ----

  function HexDigit(c: char): int
    requires Hex(c)
  {
    if c <= '9' then c as int - '0' as int
    else if c <= 'F' then c as int - 'A' as int + 10
    else c as int - 'a' as int + 10
  }

  /** The code units that section 7 of RFC 8259 gives a string content. */
  function Standard(t: string): (codes: seq<int>)
    requires ValidContent(t)
  {
    if t == "" then []
    else if t[0] != '\\' then [t[0] as int] + Standard(t[1..])
    else
      match t[1]
      case 'b' => [8] + Standard(t[2..])
      case 'f' => [12] + Standard(t[2..])
      case 'n' => [10] + Standard(t[2..])
      case 'r' => [13] + Standard(t[2..])
      case 't' => [9] + Standard(t[2..])
      case 'u' =>
        [((HexDigit(t[2]) * 16 + HexDigit(t[3])) * 16 + HexDigit(t[4])) * 16 + HexDigit(t[5])] + Standard(t[6..])
      case other => [other as int] + Standard(t[2..])
  }

  function Codes(s: string): seq<int> {
    seq(|s|, i requires 0 <= i < |s| => s[i] as int)
  }

  /** No escape of a backspace, a form feed or a code unit. */
  predicate FewEscapes(t: string)
    requires ValidContent(t)
  {
    if t == "" then true
    else if t[0] != '\\' then FewEscapes(t[1..])
    else t[1] != 'b' && t[1] != 'f' && t[1] != 'u' && FewEscapes(t[2..])
  }

  lemma {:induction false} NotShorter(t: string, s: string)
    requires ValidContent(t) && StandsFor(t, s)
    ensures |s| >= |Standard(t)|
    decreases |t|
  {
    hide EscapeGives;
    if t == "" {
    } else if t[0] != '\\' {
      NotShorter(t[1..], s[1..]);
    } else if t[1] != 'u' {
      NotShorter(t[2..], s[1..]);
    } else {
      var rest := AfterUnit(t, s);
      NotShorter(t[6..], rest);
    }
  }

  /** The code takes the u and the four digits of a unit for themselves. */
  lemma AfterUnit(t: string, s: string) returns (rest: string)
    requires ValidContent(t) && StandsFor(t, s) && |t| >= 6 && t[0] == '\\' && t[1] == 'u'
    ensures StandsFor(t[6..], rest) && |s| == 5 + |rest|
  {
    TakePlain(t[2..], s[1..], 4);
    assert t[2..][4..] == t[6..];
    rest := s[1..][4..];
  }

  lemma {:induction false} TakePlain(t: string, s: string, n: nat)
    requires StandsFor(t, s) && n <= |t| && forall i :: 0 <= i < n ==> t[i] != '\\'
    ensures |s| >= n && StandsFor(t[n..], s[n..])
  {
    if n == 0 {
      assert t[0..] == t && s[0..] == s;
    } else {
      TakePlain(t[1..], s[1..], n - 1);
      assert t[1..][n - 1..] == t[n..] && s[1..][n - 1..] == s[n..];
    }
  }

  /** The text the code extracts is the one the standard gives exactly when the content has none of the
      three escapes that the code does not know. */
  lemma {:induction false} ExtractIsStandardExactlyWhen(t: string, s: string)
    requires ValidContent(t) && StandsFor(t, s)
    ensures Codes(s) == Standard(t) <==> FewEscapes(t)
    decreases |t|
  {
    if t == "" {
    } else {
      var c := Codes(s);
      assert c[0] == s[0] as int && c[1..] == Codes(s[1..]);
      if t[0] != '\\' {
        ExtractIsStandardExactlyWhen(t[1..], s[1..]);
        HeadAndTail(c, t[0] as int, Standard(t[1..]));
      } else if t[1] == 'u' {
        var rest := AfterUnit(t, s);
        NotShorter(t[6..], rest);
      } else {
        ExtractIsStandardExactlyWhen(t[2..], s[1..]);
        HeadAndTail(c, Standard(t)[0], Standard(t[2..]));
      }
    }
  }

  lemma HeadAndTail(c: seq<int>, x: int, rest: seq<int>)
    requires c != []
    ensures c == [x] + rest <==> c[0] == x && c[1..] == rest
  {
    if c[0] == x && c[1..] == rest {
      assert c == [c[0]] + c[1..];
    }
  }
}
