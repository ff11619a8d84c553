/**
 Prompts of reference videos (lib/reference_video/shot_parser.py): cutting a prompt into shots
 at its `Shot N (Xs):` headers, finding its mentions, and replacing them by picture numbers.
 */
module ShotParser {
  import opened FirstOccurrence
  import opened PythonText
  import opened Wrappers

  datatype Shot = Shot(duration: nat, text: string)

  datatype Error = BadDuration

  // ---------------------------------------------------------------- lines

  /** Characters that end a line for `str.splitlines`. */
  predicate IsBreak(c: char) {
    || '\U{000A}' <= c <= '\U{000D}' || '\U{001C}' <= c <= '\U{001E}'
    || c == '\U{0085}' || c == '\U{2028}' || c == '\U{2029}'
  }

  lemma BreaksAreSpaces(c: char)
    requires IsBreak(c)
    ensures IsSpace(c)
  {
  }

  /** How many characters the line break at the front of `s` has; `\r\n` is one break. */
  function BreakLength(s: string): (n: nat)
    ensures n <= |s|
  {
    if s == "" || !IsBreak(s[0]) then 0
    else if s[0] == '\r' && |s| > 1 && s[1] == '\n' then 2 else 1
  }

  /** The lines of `line + s`, where `line` is the part of the current line already read. */
  function LinesFrom(line: string, s: string): seq<string>
    decreases |s|
  {
    if s == "" then (if line == "" then [] else [line])
    else if BreakLength(s) > 0 then [line] + LinesFrom("", s[BreakLength(s)..])
    else LinesFrom(line + [s[0]], s[1..])
  }

  /** `str.splitlines`. */
  function SplitLines(s: string): seq<string> {
    LinesFrom("", s)
  }

  /** `"\n".join`. */
  function Join(lines: seq<string>): string {
    if lines == [] then ""
    else if |lines| == 1 then lines[0]
    else lines[0] + "\n" + Join(lines[1..])
  }

  predicate IsLine(s: string) {
    forall c <- s :: !IsBreak(c)
  }

  /** The only line breaks are `\n`. */
  predicate OnlyNewlines(s: string) {
    forall c <- s :: IsBreak(c) ==> c == '\n'
  }

  lemma {:induction false} LinesAreLines(line: string, s: string)
    requires IsLine(line)
    ensures forall l <- LinesFrom(line, s) :: IsLine(l)
    decreases |s|
  {
    hide IsBreak;
    if s != "" {
      if BreakLength(s) > 0 {
        LinesAreLines("", s[BreakLength(s)..]);
      } else {
        LinesAreLines(line + [s[0]], s[1..]);
      }
    }
  }

  lemma ReadEnd(line: string)
    ensures LinesFrom(line, "") == if line == "" then [] else [line]
  {
  }

  lemma ReadBreak(line: string, s: string, n: nat)
    requires s != "" && BreakLength(s) == n > 0
    ensures LinesFrom(line, s) == [line] + LinesFrom("", s[n..])
  {
  }

  lemma ReadChar(line: string, s: string)
    requires s != "" && BreakLength(s) == 0
    ensures LinesFrom(line, s) == LinesFrom(line + [s[0]], s[1..])
  {
  }

  /** A line is complete behind a `\n`. */
  lemma {:induction false} SplitAtNewline(line: string, a: string, b: string)
    ensures LinesFrom(line, a + "\n" + b) == LinesFrom(line, a + "\n") + LinesFrom("", b)
    decreases |a|
  {
    hide LinesFrom;
    var s, t := a + "\n", a + "\n" + b;
    if a == "" || a == "\r" {
      var n := |s|;
      assert BreakLength(s) == BreakLength(t) == n && s[n..] == "" && t[n..] == b;
      ReadBreak(line, s, n);
      ReadBreak(line, t, n);
      ReadEnd("");
    } else {
      var n := BreakLength(a);
      assert BreakLength(s) == BreakLength(t) == n;
      if n > 0 {
        assert s[n..] == a[n..] + "\n" && t[n..] == a[n..] + "\n" + b;
        ReadBreak(line, s, n);
        ReadBreak(line, t, n);
        SplitAtNewline("", a[n..], b);
      } else {
        assert s[1..] == a[1..] + "\n" && t[1..] == a[1..] + "\n" + b;
        ReadChar(line, s);
        ReadChar(line, t);
        SplitAtNewline(line + [a[0]], a[1..], b);
      }
    }
  }

  /** Text put in front of the current line changes the first line only. */
  lemma {:induction false} LinesBehind(x: string, line: string, s: string)
    requires x != ""
    ensures var ls := LinesFrom(line, s);
      LinesFrom(x + line, s) == if ls == [] then [x] else [x + ls[0]] + ls[1..]
    decreases |s|
  {
    hide IsBreak;
    if s == "" {
      assert line == "" ==> x + line == x;
    } else if BreakLength(s) == 0 {
      assert x + line + [s[0]] == x + (line + [s[0]]);
      LinesBehind(x, line + [s[0]], s[1..]);
      SomeLines(line + [s[0]], s[1..]);
    }
  }

  lemma {:induction false} SomeLines(line: string, s: string)
    requires line != "" || s != ""
    ensures LinesFrom(line, s) != []
    decreases |s|
  {
    hide IsBreak;
    if s != "" && BreakLength(s) == 0 {
      SomeLines(line + [s[0]], s[1..]);
    }
  }

  /** The front of a line is read character by character. */
  lemma {:induction false} ReadFront(line: string, x: string, s: string)
    requires IsLine(x)
    ensures LinesFrom(line, x + s) == LinesFrom(line + x, s)
    decreases |x|
  {
    hide IsBreak;
    if x == "" {
      assert x + s == s && line + x == line;
    } else {
      assert !IsBreak(x[0]) && (x + s)[1..] == x[1..] + s;
      ReadFront(line + [x[0]], x[1..], s);
      assert line + [x[0]] + x[1..] == line + x;
    }
  }

  /** A text is one line up to the first of the ten line breaks, and `\r\n` is one break. */
  lemma BrokenAt(line: string, c: char, rest: string)
    requires forall x <- line :: x !in "\n\U{000B}\U{000C}\r\U{001C}\U{001D}\U{001E}\U{0085}\U{2028}\U{2029}"
    requires c in "\n\U{000B}\U{000C}\r\U{001C}\U{001D}\U{001E}\U{0085}\U{2028}\U{2029}"
    ensures SplitLines(line) == if line == "" then [] else [line]
    ensures !(c == '\r' && rest != "" && rest[0] == '\n') ==>
      SplitLines(line + [c] + rest) == [line] + SplitLines(rest)
    ensures SplitLines(line + "\r\n" + rest) == [line] + SplitLines(rest)
  {
    assert IsLine(line) && IsBreak(c);
    hide IsBreak;
    assert "" + line == line && line + "" == line && line + ([c] + rest) == line + [c] + rest
        && line + ("\r\n" + rest) == line + "\r\n" + rest;
    ReadFront("", line, "");
    ReadFront("", line, [c] + rest);
    ReadFront("", line, "\r\n" + rest);
    assert ([c] + rest)[1..] == rest;
    if !(c == '\r' && rest != "" && rest[0] == '\n') {
      ReadBreak(line, [c] + rest, 1);
    }
    assert IsBreak('\r') by { CarriageReturnBreaks(); }
    assert ("\r\n" + rest)[2..] == rest;
    ReadBreak(line, "\r\n" + rest, 2);
  }

  lemma CarriageReturnBreaks()
    ensures IsBreak('\r')
  {
  }

  /** A final `\n` adds nothing unless the text before it ended in a break. */
  lemma {:induction false} FinalNewline(line: string, s: string)
    requires line + s != "" && (s != "" ==> !IsBreak(s[|s| - 1]))
    ensures LinesFrom(line, s + "\n") == LinesFrom(line, s)
    decreases |s|
  {
    var t := s + "\n";
    if s == "" {
      assert t == "\n" && t[1..] == "" && BreakLength(t) == 1;
    } else {
      var n := BreakLength(s);
      assert BreakLength(t) == n;
      if n > 0 {
        assert t[n..] == s[n..] + "\n" && s[n..] != "";
        FinalNewline("", s[n..]);
      } else {
        assert t[1..] == s[1..] + "\n";
        FinalNewline(line + [s[0]], s[1..]);
      }
    }
  }

  /** With no other breaks, joining the lines gives the text back. */
  lemma {:induction false} JoinOfLines(line: string, s: string)
    requires OnlyNewlines(s) && (s != "" ==> !IsBreak(s[|s| - 1]))
    ensures Join(LinesFrom(line, s)) == line + s
    decreases |s|
  {
    hide IsBreak, LinesFrom, Join;
    if s == "" {
      ReadEnd(line);
      JoinOne(line);
      assert line + s == line;
    } else {
      var rest := s[1..];
      OnlyNewlinesBehind(s);
      hide OnlyNewlines;
      if IsBreak(s[0]) {
        ReadBreak(line, s, 1);
        SomeLines("", rest);
        JoinOfLines("", rest);
        JoinMore(line, LinesFrom("", rest));
        assert "" + rest == rest && s == "\n" + rest;
      } else {
        ReadChar(line, s);
        JoinOfLines(line + [s[0]], rest);
        assert line + [s[0]] + rest == line + s;
      }
    }
  }

  lemma OnlyNewlinesBehind(s: string)
    requires OnlyNewlines(s) && s != ""
    ensures OnlyNewlines(s[1..]) && (IsBreak(s[0]) ==> s[0] == '\n')
  {
    hide IsBreak;
    assert s[0] in s && forall c <- s[1..] :: c in s;
  }

  lemma JoinOne(line: string)
    ensures Join(if line == "" then [] else [line]) == line
  {
  }

  lemma JoinMore(line: string, lines: seq<string>)
    requires lines != []
    ensures Join([line] + lines) == line + ("\n" + Join(lines))
  {
    assert ([line] + lines)[1..] == lines;
  }

  lemma {:induction false} JoinHasOnlyNewlines(lines: seq<string>)
    requires forall l <- lines :: OnlyNewlines(l)
    ensures OnlyNewlines(Join(lines))
  {
    hide IsBreak;
    if |lines| > 1 {
      assert forall l <- lines[1..] :: l in lines;
      JoinHasOnlyNewlines(lines[1..]);
      assert OnlyNewlines(lines[0]);
    } else if |lines| == 1 {
      assert OnlyNewlines(lines[0]);
    }
  }

  // ---------------------------------------------------------------- headers

  /** Letters that `s` matches when case is ignored; the third is the long s. */
  predicate IsLetterS(c: char) {
    c == 's' || c == 'S' || c == '\U{017F}'
  }

  predicate StartsWithShot(s: string) {
    |s| >= 4 && IsLetterS(s[0]) && s[1] in "hH" && s[2] in "oO" && s[3] in "tT"
  }

  /** The digits at the front. */
  function DigitRun(s: string): (r: string)
    ensures r <= s && forall c <- r :: IsDecimal(c)
    ensures r < s ==> !IsDecimal(s[|r|])
  {
    if s != "" && IsDecimal(s[0]) then
      var rest := DigitRun(s[1..]);
      assert s == [s[0]] + s[1..];
      [s[0]] + rest
    else ""
  }

  /** `\s*` and one character. */
  function Expect(s: string, c: char): Option<string> {
    var r := StripLeft(s);
    if r != "" && r[0] == c then Some(r[1..]) else None
  }

  /** `\s*s\s*\)\s*:\s*(.*)`: what follows the duration. */
  function AfterDuration(s: string): Option<string> {
    var unit := StripLeft(s);
    if unit == "" || !IsLetterS(unit[0]) then None else
    match Expect(unit[1..], ')')
    case None => None
    case Some(rest) =>
      match Expect(rest, ':')
      case None => None
      case Some(text) => Some(StripLeft(text))
  }

  /** `\s*(\d+)` and what follows it: what comes behind the parenthesis. */
  function Inside(s: string): Option<(nat, string)> {
    var digits := DigitRun(StripLeft(s));
    if digits == "" then None else
    match AfterDuration(StripLeft(s)[|digits|..])
    case None => None
    case Some(text) => Some((Value(digits), text))
  }

  /** The duration and text of a header line, if the stripped line is one. */
  function Header(s: string): Option<(nat, string)> {
    if !StartsWithShot(s) then None else
    var number := StripLeft(s[4..]);
    if number == s[4..] || DigitRun(number) == "" then None else
    match Expect(number[|DigitRun(number)|..], '(')
    case None => None
    case Some(rest) => Inside(rest)
  }

  /** The pieces of a line that the header pattern matches, in order. */
  datatype Parts = Parts(word: string, w1: string, number: string, w2: string, w3: string, digits: string,
                         w4: string, unit: char, w5: string, w6: string, w7: string, text: string)

  function SpellEnd(p: Parts): string {
    p.w4 + ([p.unit] + (p.w5 + (")" + (p.w6 + (":" + (p.w7 + p.text))))))
  }

  function SpellInside(p: Parts): string {
    p.w3 + (p.digits + SpellEnd(p))
  }

  function Spell(p: Parts): string {
    p.word + (p.w1 + (p.number + (p.w2 + ("(" + SpellInside(p)))))
  }

  ghost predicate AllDigits(s: string) {
    s != "" && forall c <- s :: IsDecimal(c)
  }

  /** The regular expression's demands on its pieces. */
  ghost predicate IsPattern(p: Parts) {
    && |p.word| == 4 && p.word[0] in "sS\U{017F}" && p.word[1] in "hH" && p.word[2] in "oO" && p.word[3] in "tT"
    && p.w1 != "" && AllDigits(p.number) && AllDigits(p.digits)
    && AllSpaces(p.w1) && AllSpaces(p.w2) && AllSpaces(p.w3)
    && IsEnd(p)
  }

  ghost predicate IsEnd(p: Parts) {
    p.unit in "sS\U{017F}" && AllSpaces(p.w4) && AllSpaces(p.w5) && AllSpaces(p.w6) && AllSpaces(p.w7)
  }

  lemma {:induction false} RunOf(d: string, x: string)
    requires (forall c <- d :: IsDecimal(c)) && (x != "" ==> !IsDecimal(x[0]))
    ensures DigitRun(d + x) == d
  {
    if d == "" {
      assert d + x == x;
    } else {
      assert IsDecimal(d[0]) && (d + x)[1..] == d[1..] + x;
      RunOf(d[1..], x);
    }
  }

  lemma SpacesBefore(w: string, c: char, x: string)
    requires AllSpaces(w) && !IsSpace(c)
    ensures StripLeft(w + ([c] + x)) == [c] + x
  {
    StripLeftOf(w, [c] + x);
  }

  lemma ExpectOf(w: string, c: char, x: string)
    requires AllSpaces(w) && !IsSpace(c)
    ensures Expect(w + ([c] + x), c) == Some(x)
  {
    SpacesBefore(w, c, x);
    assert ([c] + x)[1..] == x;
  }

  lemma AfterDurationOf(p: Parts)
    requires IsPattern(p)
    ensures AfterDuration(SpellEnd(p)) == Some(StripLeft(p.text))
  {
    var r2 := p.w6 + (":" + (p.w7 + p.text));
    var r1 := p.w5 + (")" + r2);
    SpacesBefore(p.w4, p.unit, r1);
    hide IsSpace, IsLetterS, AllSpaces, StripLeft;
    assert ([p.unit] + r1)[1..] == r1;
    assert !IsSpace(')') && !IsSpace(':') by { NotSpaces(); }
    ExpectOf(p.w5, ')', r2);
    ExpectOf(p.w6, ':', p.w7 + p.text);
    StripLeftOf(p.w7, p.text);
  }

  lemma NotSpaces()
    ensures !IsSpace('(') && !IsSpace(')') && !IsSpace(':')
    ensures forall c :: IsSpace(c) ==> !IsDecimal(c)
    ensures forall c :: IsLetterS(c) ==> !IsDecimal(c) && !IsSpace(c)
    ensures !IsDecimal('(')
  {
  }

  /** Spaces or the next piece's first character end a run of digits. */
  lemma RunBefore(d: string, w: string, c: char, x: string)
    requires AllDigits(d) && AllSpaces(w) && !IsDecimal(c)
    ensures DigitRun(d + (w + ([c] + x))) == d && (d + (w + ([c] + x)))[|d|..] == w + ([c] + x)
  {
    NotSpaces();
    hide IsSpace, IsDecimal, BlockZero, IsLetterS;
    var rest := w + ([c] + x);
    if w == "" { assert rest[0] == c; } else { assert IsSpace(w[0]) && rest[0] == w[0]; }
    RunOf(d, rest);
  }

  lemma LetterS(c: char)
    ensures IsLetterS(c) <==> c in "sS\U{017F}"
  {
    assert "sS\U{017F}"[0] == 's' && "sS\U{017F}"[1] == 'S' && "sS\U{017F}"[2] == '\U{017F}';
  }

  lemma InsideOf(p: Parts)
    requires IsPattern(p)
    ensures Inside(SpellInside(p)) == Some((Value(p.digits), StripLeft(p.text)))
  {
    NotSpaces();
    LetterS(p.unit);
    hide IsSpace, IsDecimal, BlockZero, IsLetterS, StripLeft, AfterDuration, AllSpaces;
    AfterDurationOf(p);
    var end := SpellEnd(p);
    var x := p.w5 + (")" + (p.w6 + (":" + (p.w7 + p.text))));
    assert end == p.w4 + ([p.unit] + x);
    RunBefore(p.digits, p.w4, p.unit, x);
    DigitsAreNoSpaces(p.w3, p.digits, end);
  }

  lemma DigitsAreNoSpaces(w: string, d: string, x: string)
    requires AllSpaces(w) && AllDigits(d)
    ensures StripLeft(w + (d + x)) == d + x
  {
    NotSpaces();
    assert IsDecimal(d[0]);
    StripLeftOf(w, d + x);
  }

  /** A line that the pattern matches is a header, with the pattern's duration and text. */
  lemma PatternIsHeader(p: Parts)
    requires IsPattern(p)
    ensures Header(Spell(p)) == Some((Value(p.digits), StripLeft(p.text)))
  {
    var s := Spell(p);
    var inside := SpellInside(p);
    var rest := p.w2 + ("(" + inside);
    NotSpaces();
    LetterS(p.word[0]);
    hide IsSpace, IsDecimal, BlockZero, IsLetterS, StripLeft, Inside, SpellInside, AllSpaces;
    assert StartsWithShot(s) && s[4..] == p.w1 + (p.number + rest);
    DigitsAreNoSpaces(p.w1, p.number, rest);
    assert |p.number + rest| < |s[4..]|;
    RunBefore(p.number, p.w2, '(', inside);
    ExpectOf(p.w2, '(', inside);
    InsideOf(p);
  }

  lemma ExpectIsPattern(s: string, c: char) returns (w: string)
    requires Expect(s, c).Some?
    ensures AllSpaces(w) && s == w + ([c] + Expect(s, c).value)
  {
    hide IsSpace;
    w := StripLeftSplits(s);
  }

  lemma EndIsPattern(s: string) returns (p: Parts)
    requires AfterDuration(s).Some?
    ensures IsEnd(p) && SpellEnd(p) == s
    ensures AfterDuration(s).value == p.text && StripLeft(p.text) == p.text
  {
    hide IsSpace, IsLetterS, StripLeft, AllSpaces;
    var w4 := StripLeftSplits(s);
    var unit := StripLeft(s);
    assert unit == [unit[0]] + unit[1..];
    var w5 := ExpectIsPattern(unit[1..], ')');
    var closed := Expect(unit[1..], ')').value;
    var w6 := ExpectIsPattern(closed, ':');
    var text := Expect(closed, ':').value;
    var w7 := StripLeftSplits(text);
    StripLeftIsIdempotent(text);
    LetterS(unit[0]);
    p := Parts("", "", "", "", "", "", w4, unit[0], w5, w6, w7, StripLeft(text));
  }

  lemma InsideIsPattern(s: string) returns (p: Parts)
    requires Inside(s).Some?
    ensures IsEnd(p) && AllSpaces(p.w3) && AllDigits(p.digits) && SpellInside(p) == s
    ensures Inside(s).value == (Value(p.digits), p.text) && StripLeft(p.text) == p.text
  {
    hide IsSpace, IsDecimal, BlockZero, IsLetterS, StripLeft, AfterDuration, AllSpaces;
    var w3 := StripLeftSplits(s);
    var digits := DigitRun(StripLeft(s));
    var end := StripLeft(s)[|digits|..];
    var e := EndIsPattern(end);
    p := e.(w3 := w3, digits := digits);
    assert SpellEnd(p) == end && StripLeft(s) == digits + end;
  }

  /** And a header is a line that the pattern matches. */
  lemma HeaderIsPattern(s: string) returns (p: Parts)
    requires Header(s).Some?
    ensures IsPattern(p) && Spell(p) == s
    ensures Header(s).value == (Value(p.digits), p.text) && StripLeft(p.text) == p.text
  {
    hide IsSpace, IsDecimal, BlockZero, IsLetterS, StripLeft, Inside, SpellInside, AllSpaces, Expect;
    LetterS(s[0]);
    var w1 := StripLeftSplits(s[4..]);
    var number := StripLeft(s[4..]);
    var digits := DigitRun(number);
    var rest := number[|digits|..];
    assert number == digits + rest;
    var w2 := ExpectIsPattern(rest, '(');
    var inside := Expect(rest, '(').value;
    var e := InsideIsPattern(inside);
    p := e.(word := s[..4], w1 := w1, number := digits, w2 := w2);
    assert SpellInside(p) == inside by { SameInside(p, e); }
    assert s == p.word + s[4..];
  }

  lemma SameInside(p: Parts, e: Parts)
    requires e == p.(word := e.word, w1 := e.w1, number := e.number, w2 := e.w2)
    ensures SpellInside(p) == SpellInside(e)
  {
  }

  lemma StripLeftIsIdempotent(s: string)
    ensures StripLeft(StripLeft(s)) == StripLeft(s)
  {
    var w := StripLeftSplits(s);
  }

  /** The matcher decides the regular expression. */
  lemma HeaderDecidesThePattern(s: string)
    ensures Header(s).Some? <==> exists p :: IsPattern(p) && Spell(p) == s
  {
    hide Header, Spell, IsPattern;
    if Header(s).Some? {
      var p := HeaderIsPattern(s);
    }
    forall p | IsPattern(p) && Spell(p) == s
      ensures Header(s).Some?
    {
      PatternIsHeader(p);
    }
  }

  // ---------------------------------------------------------------- cutting at the headers

  /** A header and the lines up to the next one. */
  datatype Section = Section(duration: nat, text: string, body: seq<string>)

  /** A prompt's lines: those before the first header, and one section per header. */
  datatype Cuts = Cuts(before: seq<string>, sections: seq<Section>)

  function Cut(lines: seq<string>): Cuts {
    if lines == [] then Cuts([], []) else
    var rest := Cut(lines[1..]);
    match Header(Strip(lines[0]))
    case Some((n, text)) => Cuts([], [Section(n, text, rest.before)] + rest.sections)
    case None => rest.(before := [lines[0]] + rest.before)
  }

  /** The stripped text before the first header, as a line of its own if there is any. */
  function Preamble(before: seq<string>): seq<string> {
    if Strip(Join(before)) == "" then [] else [Strip(Join(before))]
  }

  function ShotOf(section: Section, preamble: seq<string>): Shot {
    Shot(section.duration, Strip(Join(preamble + [section.text] + section.body)))
  }

  function ShotsOf(sections: seq<Section>, preamble: seq<string>): seq<Shot> {
    seq(|sections|, i requires 0 <= i < |sections| => ShotOf(sections[i], if i == 0 then preamble else []))
  }

  /** One shot per header, before any check of its duration. */
  function Segments(lines: seq<string>): seq<Shot> {
    ShotsOf(Cut(lines).sections, Preamble(Cut(lines).before))
  }

  predicate InRange(shot: Shot) {
    1 <= shot.duration <= 15
  }

  /** The result of parsing, without the mentions: the shots, and whether there was no header at all. */
  function Parsed(text: string): Result<(seq<Shot>, bool), Error> {
    var shots := Segments(SplitLines(text));
    if shots == [] then Ok(([Shot(1, Strip(text))], true))
    else if forall shot <- shots :: InRange(shot) then Ok((shots, false))
    else Err(BadDuration)
  }

  /** The shots still to come: the one being collected, if any, and those of the sections ahead. */
  function Ahead(duration: Option<nat>, buffer: seq<string>, cuts: Cuts): seq<Shot> {
    match duration
    case None => ShotsOf(cuts.sections, Preamble(buffer + cuts.before))
    case Some(n) => [Shot(n, Strip(Join(buffer + cuts.before)))] + ShotsOf(cuts.sections, [])
  }

  lemma FirstShotOf(section: Section, sections: seq<Section>, preamble: seq<string>)
    ensures ShotsOf([section] + sections, preamble) == [ShotOf(section, preamble)] + ShotsOf(sections, [])
  {
    hide ShotOf;
  }

  lemma Regroup<T>(a: seq<T>, b: seq<T>, c: seq<T>)
    ensures a + (b + c) == a + b + c
  {
  }

  lemma AheadOfText(duration: Option<nat>, buffer: seq<string>, lines: seq<string>)
    requires lines != [] && Header(Strip(lines[0])).None?
    ensures Ahead(duration, buffer, Cut(lines)) == Ahead(duration, buffer + [lines[0]], Cut(lines[1..]))
  {
    hide Header, Strip, Join, ShotsOf, Preamble;
    Regroup(buffer, [lines[0]], Cut(lines[1..]).before);
  }

  lemma AheadOfHeader(duration: Option<nat>, buffer: seq<string>, lines: seq<string>)
    requires lines != [] && Header(Strip(lines[0])).Some?
    ensures var (n, text) := Header(Strip(lines[0])).value;
      Ahead(duration, buffer, Cut(lines)) ==
        if duration.Some? then
          [Shot(duration.value, Strip(Join(buffer)))] + Ahead(Some(n), [text], Cut(lines[1..]))
        else
          Ahead(Some(n), Preamble(buffer) + [text], Cut(lines[1..]))
  {
    hide Header, Strip, Join, ShotsOf, Preamble;
    var rest := Cut(lines[1..]);
    var (n, text) := Header(Strip(lines[0])).value;
    var section := Section(n, text, rest.before);
    assert buffer + [] == buffer;
    assert [] + [text] + rest.before == [text] + rest.before;
    FirstShotOf(section, rest.sections, []);
    FirstShotOf(section, rest.sections, Preamble(buffer));
  }

  lemma AheadOfNothing(duration: Option<nat>, buffer: seq<string>)
    ensures Ahead(duration, buffer, Cut([])) ==
            if duration.Some? then [Shot(duration.value, Strip(Join(buffer)))] else []
  {
    hide Strip, Join;
    assert buffer + [] == buffer;
  }

  lemma AheadAtStart(lines: seq<string>)
    ensures [] + Ahead(None, [], Cut(lines)) == Segments(lines)
  {
    hide Header, Strip, Join, Cut;
    assert [] + Cut(lines).before == Cut(lines).before;
  }

  lemma PreambleThen(buffer: seq<string>, first: string)
    ensures Preamble(buffer) + [first] == if Strip(Join(buffer)) != "" then [Strip(Join(buffer)), first] else [first]
  {
    hide Strip, Join;
  }

  lemma ParsedOf(text: string)
    ensures var shots := Segments(SplitLines(text));
      Parsed(text) == if shots == [] then Ok(([Shot(1, Strip(text))], true))
                      else if forall shot <- shots :: InRange(shot) then Ok((shots, false))
                      else Err(BadDuration)
  {
    hide Segments, SplitLines, Strip;
  }

  lemma {:induction false} CutUntilHeader(before: seq<string>, rest: seq<string>)
    requires NoHeader(before) && (rest == [] || Header(Strip(rest[0])).Some?)
    ensures Cut(before + rest) == Cuts(before, Cut(rest).sections) && Cut(rest).before == []
  {
    hide Header, Strip;
    if before == [] {
      assert before + rest == rest;
    } else {
      assert before[0] in before && (before + rest)[1..] == before[1..] + rest;
      CutUntilHeader(before[1..], rest);
    }
  }

  /** A header starts a shot that goes on to the next header: its duration, and as text what is
      behind the header and the lines under it, stripped; what is before the first header is put in
      front of the first shot, stripped. */
  lemma SectionsInOrder(before: seq<string>, header: string, body: seq<string>, rest: seq<string>)
    requires NoHeader(before) && Header(Strip(header)).Some? && NoHeader(body)
    requires rest == [] || Header(Strip(rest[0])).Some?
    ensures var (n, text) := Header(Strip(header)).value; var first := Strip(Join(before));
      Segments(before + ([header] + (body + rest))) ==
        [Shot(n, Strip(Join((if first == "" then [] else [first]) + [text] + body)))] + Segments(rest)
  {
    hide Header, Strip, Join;
    var (n, text) := Header(Strip(header)).value;
    var tail := [header] + (body + rest);
    CutUntilHeader(before, tail);
    CutUntilHeader(body, rest);
    assert tail[1..] == body + rest;
    assert Cut(tail).sections == [Section(n, text, body)] + Cut(rest).sections;
    FirstShotOf(Section(n, text, body), Cut(rest).sections, Preamble(before));
    assert Preamble([]) == [] by { NothingBefore(); }
  }

  lemma NothingBefore()
    ensures Preamble([]) == []
  {
  }

  lemma {:induction false} NoHeaderNoShot(lines: seq<string>)
    ensures Segments(lines) == [] <==> NoHeader(lines)
  {
    hide Header, Strip, Join, ShotOf, Preamble;
    if lines != [] {
      NoHeaderNoShot(lines[1..]);
      assert lines == [lines[0]] + lines[1..];
    }
  }

  /** A text without a header is one shot of one second, marked so; any other is the shots of its
      headers, if all of them last 1 to 15 seconds. */
  lemma ParsedExactly(text: string)
    ensures var lines := SplitLines(text);
      Parsed(text) ==
        if NoHeader(lines) then Ok(([Shot(1, Strip(text))], true))
        else if forall shot <- Segments(lines) :: 1 <= shot.duration <= 15 then Ok((Segments(lines), false))
        else Err(BadDuration)
  {
    NoHeaderNoShot(SplitLines(text));
    hide Segments, SplitLines, Strip, NoHeader;
  }

  method ParseShots(text: string) returns (r: Result<(seq<Shot>, bool), Error>)
    ensures r == Parsed(text)
  {
    hide *;
    var lines := SplitLines(text);
    var segments: seq<Shot> := [];
    var duration: Option<nat> := None;
    var buffer: seq<string> := [];
    AheadAtStart(lines);
    assert lines[0..] == lines;
    for i := 0 to |lines|
      invariant segments + Ahead(duration, buffer, Cut(lines[i..])) == Segments(lines)
      invariant duration.None? ==> segments == []
    {
      assert lines[i..][1..] == lines[i + 1..];
      match Header(Strip(lines[i])) {
        case Some((n, first)) =>
          AheadOfHeader(duration, buffer, lines[i..]);
          if duration.Some? {
            var done := Shot(duration.value, Strip(Join(buffer)));
            ghost var ahead := Ahead(Some(n), [first], Cut(lines[i + 1..]));
            assert segments + ([done] + ahead) == segments + [done] + ahead;
            segments := segments + [done];
            buffer := [first];
          } else {
            var preamble := Strip(Join(buffer));
            PreambleThen(buffer, first);
            buffer := if preamble != "" then [preamble, first] else [first];
          }
          duration := Some(n);
        case None =>
          AheadOfText(duration, buffer, lines[i..]);
          buffer := buffer + [lines[i]];
      }
    }
    AheadOfNothing(duration, buffer);
    assert lines[|lines|..] == [];
    if duration.Some? {
      segments := segments + [Shot(duration.value, Strip(Join(buffer)))];
    }
    assert segments == Segments(lines);
    ParsedOf(text);
    if segments == [] {
      return Ok(([Shot(1, Strip(text))], true));
    }
    var inRange := AllInRange(segments);
    return if inRange then Ok((segments, false)) else Err(BadDuration);
  }

  method AllInRange(shots: seq<Shot>) returns (r: bool)
    ensures r <==> forall shot <- shots :: InRange(shot)
  {
    for i := 0 to |shots|
      invariant forall j :: 0 <= j < i ==> InRange(shots[j])
    {
      if !InRange(shots[i]) {
        return false;
      }
    }
    return true;
  }

  // ---------------------------------------------------------------- printing shots and reading them back

  function Prefix(k: nat, n: nat): string {
    "Shot " + Decimal(k) + " (" + Decimal(n) + "s): "
  }

  function Block(k: nat, shot: Shot): string {
    Prefix(k, shot.duration) + shot.text
  }

  /** The prompt that an editor shows for shots numbered from `k`. */
  function Printed(shots: seq<Shot>, k: nat): string {
    if shots == [] then ""
    else if |shots| == 1 then Block(k, shots[0])
    else Block(k, shots[0]) + "\n" + Printed(shots[1..], k + 1)
  }

  function FirstLine(text: string): string {
    if SplitLines(text) == [] then "" else SplitLines(text)[0]
  }

  function LaterLines(text: string): seq<string> {
    if SplitLines(text) == [] then [] else SplitLines(text)[1..]
  }

  predicate NoHeader(lines: seq<string>) {
    forall l <- lines :: Header(Strip(l)).None?
  }

  /** Texts that survive: trimmed, `\n` the only break, no space behind the first line, no header after it. */
  predicate IsPlain(text: string) {
    && Strip(text) == text
    && OnlyNewlines(text)
    && StripRight(FirstLine(text)) == FirstLine(text)
    && NoHeader(LaterLines(text))
  }

  lemma PrefixIsALine(k: nat, n: nat)
    ensures IsLine(Prefix(k, n))
  {
    hide Decimal;
    assert forall c <- Decimal(k) + Decimal(n) :: IsDigit(c) && !IsBreak(c);
    assert IsLine("Shot ") && IsLine(Decimal(k)) && IsLine(" (") && IsLine(Decimal(n)) && IsLine("s): ");
  }

  lemma SpacesOrNot()
    ensures IsSpace(' ') && !IsSpace('S') && !IsSpace(':')
  {
  }

  /** The pieces of a printed header. */
  function PrintedParts(k: nat, n: nat, w7: string, text: string): Parts {
    Parts("Shot", " ", Decimal(k), " ", "", Decimal(n), "", 's', "", "", w7, text)
  }

  lemma PrintedPattern(k: nat, n: nat, w7: string, text: string)
    requires AllSpaces(w7)
    ensures IsPattern(PrintedParts(k, n, w7, text))
    ensures Spell(PrintedParts(k, n, w7, text)) == "Shot " + Decimal(k) + " (" + Decimal(n) + "s):" + w7 + text
  {
    hide Decimal;
    SpacesOrNot();
    PrintedSpelling(Decimal(k), Decimal(n), w7, text);
  }

  lemma PrintedEnd(w7: string, text: string)
    ensures "" + (['s'] + ("" + (")" + ("" + (":" + (w7 + text)))))) == "s):" + (w7 + text)
  {
    var x := w7 + text;
    Regroup(")", ":", x);
    Regroup("s", "):", x);
    assert "" + (":" + x) == ":" + x && "" + ("):" + x) == "):" + x && "" + ("s" + ("):" + x)) == "s" + ("):" + x);
  }

  lemma PrintedSpelling(number: string, digits: string, w7: string, text: string)
    ensures Spell(Parts("Shot", " ", number, " ", "", digits, "", 's', "", "", w7, text))
         == "Shot " + number + " (" + digits + "s):" + w7 + text
  {
    PrintedEnd(w7, text);
    var end := "s):" + (w7 + text);
    assert "" + (digits + end) == digits + end;
    Regroup(" ", "(", digits + end);
    Regroup("Shot", " ", number + (" (" + (digits + end)));
    Regroup("Shot ", number, " (" + (digits + end));
    Regroup("Shot " + number, " (", digits + end);
    Regroup("Shot " + number + " (", digits, end);
    Regroup("Shot " + number + " (" + digits, "s):", w7 + text);
    Regroup("Shot " + number + " (" + digits + "s):", w7, text);
  }

  lemma PrintedHeader(k: nat, n: nat, f: string)
    ensures Header(Strip(Prefix(k, n) + f)) == Some((n, Strip(f)))
  {
    hide Decimal, Value, IsSpace, Header, IsPattern;
    SpacesOrNot();
    var p := Prefix(k, n);
    var bare := "Shot " + Decimal(k) + " (" + Decimal(n) + "s):";
    assert p == bare + " " && p[0] == 'S' && bare[|bare| - 1] == ':';
    assert StripLeft(p + f) == p + f;
    StripsCommute(f);
    ValueOfDecimal(n);
    if StripRight(f) == "" {
      var w := StripRightSplits(f);
      assert p + f == bare + (" " + f);
      StripRightOf(bare, " " + f);
      PrintedPattern(k, n, "", "");
      PatternIsHeader(PrintedParts(k, n, "", ""));
      assert bare + "" + "" == bare;
    } else {
      StripRightBehind(p, f);
      PrintedPattern(k, n, " ", StripRight(f));
      PatternIsHeader(PrintedParts(k, n, " ", StripRight(f)));
    }
  }

  /** The lines of a printed shot: its header with the first line of its text, then the others. */
  lemma LinesOfBlock(k: nat, n: nat, text: string)
    ensures SplitLines(Prefix(k, n) + text) == [Prefix(k, n) + FirstLine(text)] + LaterLines(text)
  {
    hide Decimal, LinesFrom, IsLine;
    PrefixIsALine(k, n);
    var p := Prefix(k, n);
    ReadFront("", p, text);
    assert "" + p == p && p + "" == p;
    LinesBehind(p, "", text);
  }

  lemma {:induction false} CutBehind(a: seq<string>, b: seq<string>)
    requires b != [] && Header(Strip(b[0])).Some?
    ensures Cut(a + b) == Cuts(Cut(a).before, Cut(a).sections + Cut(b).sections)
  {
    hide Header, Strip;
    if a == [] {
      assert a + b == b;
    } else {
      assert (a + b)[1..] == a[1..] + b;
      CutBehind(a[1..], b);
    }
  }

  lemma {:induction false} CutWithoutHeader(lines: seq<string>)
    ensures Cut(lines).sections == [] <==> NoHeader(lines)
    ensures NoHeader(lines) ==> Cut(lines).before == lines
  {
    hide Header, Strip;
    if lines != [] {
      CutWithoutHeader(lines[1..]);
      assert forall l :: l in lines <==> l == lines[0] || l in lines[1..];
    }
  }

  /** The shots that one printed shot is read back as. */
  function ReadBack(n: nat, text: string): (shots: seq<Shot>)
    ensures shots != []
  {
    var cuts := Cut(LaterLines(text));
    ShotsOf([Section(n, Strip(FirstLine(text)), cuts.before)] + cuts.sections, [])
  }

  lemma CutOfBlock(k: nat, n: nat, text: string)
    ensures var cuts := Cut(LaterLines(text));
      Cut(SplitLines(Prefix(k, n) + text)) ==
        Cuts([], [Section(n, Strip(FirstLine(text)), cuts.before)] + cuts.sections)
  {
    LinesOfBlock(k, n, text);
    PrintedHeader(k, n, FirstLine(text));
    hide Prefix, Header, Strip, SplitLines, FirstLine, LaterLines;
    var lines := [Prefix(k, n) + FirstLine(text)] + LaterLines(text);
    assert lines[1..] == LaterLines(text);
  }

  lemma ShotsOfBoth(a: seq<Section>, b: seq<Section>)
    ensures ShotsOf(a + b, []) == ShotsOf(a, []) + ShotsOf(b, [])
  {
    hide ShotOf;
  }

  lemma NoPreamble()
    ensures Preamble([]) == []
  {
  }

  lemma SegmentsOfBlock(k: nat, n: nat, text: string)
    ensures Segments(SplitLines(Prefix(k, n) + text)) == ReadBack(n, text)
  {
    CutOfBlock(k, n, text);
    NoPreamble();
    hide Prefix, Strip, SplitLines, FirstLine, LaterLines, Cut, ShotsOf, Preamble;
  }

  /** A printed shot's lines begin with a header. */
  lemma BlockStartsWithHeader(k: nat, n: nat, text: string)
    ensures SplitLines(Prefix(k, n) + text) != [] && Header(Strip(SplitLines(Prefix(k, n) + text)[0])).Some?
  {
    hide *;
    LinesOfBlock(k, n, text);
    PrintedHeader(k, n, FirstLine(text));
  }

  lemma LinesOfBlocks(p: string, text: string, more: string)
    ensures SplitLines(p + text + "\n" + more) == SplitLines(p + (text + "\n")) + SplitLines(more)
  {
    hide LinesFrom;
    SplitAtNewline("", p + text, more);
    assert p + text + "\n" == p + (text + "\n");
  }

  lemma SegmentsOfBlocks(k: nat, n: nat, text: string, l: nat, m: nat, more: string)
    requires more != "" && Prefix(l, m) <= more
    ensures Segments(SplitLines(Prefix(k, n) + text + "\n" + more)) ==
            ReadBack(n, text + "\n") + Segments(SplitLines(more))
  {
    hide Prefix, Strip, Header, FirstLine, LaterLines, Cut, ShotsOf, Preamble, LinesFrom, SplitLines;
    LinesOfBlocks(Prefix(k, n), text, more);
    CutOfBlock(k, n, text + "\n");
    var rest := more[|Prefix(l, m)|..];
    assert more == Prefix(l, m) + rest;
    BlockStartsWithHeader(l, m, rest);
    CutOfBlock(l, m, rest);
    NoPreamble();
    var a, b := SplitLines(Prefix(k, n) + (text + "\n")), SplitLines(more);
    CutBehind(a, b);
    ShotsOfBoth(Cut(a).sections, Cut(b).sections);
  }

  /** The text of shot 0 as it stands in the prompt: all but the last are followed by a newline. */
  function InPlace(shots: seq<Shot>): string
    requires shots != []
  {
    if |shots| == 1 then shots[0].text else shots[0].text + "\n"
  }

  lemma SegmentsOfPrinted(shots: seq<Shot>, k: nat)
    requires shots != []
    ensures Segments(SplitLines(Printed(shots, k))) ==
      ReadBack(shots[0].duration, InPlace(shots)) +
      if |shots| == 1 then [] else Segments(SplitLines(Printed(shots[1..], k + 1)))
  {
    var n, text := shots[0].duration, shots[0].text;
    if |shots| == 1 {
      SegmentsOfBlock(k, n, text);
    } else {
      var more := Printed(shots[1..], k + 1);
      var m := shots[1].duration;
      assert Prefix(k + 1, m) <= more;
      SegmentsOfBlocks(k, n, text, k + 1, m, more);
    }
    hide Prefix, Segments, SplitLines, ReadBack;
  }

  lemma {:induction false} AtLeastOneEach(shots: seq<Shot>, k: nat)
    requires shots != []
    ensures |Segments(SplitLines(Printed(shots, k)))| >= |shots|
  {
    hide Printed, Segments, SplitLines, ReadBack;
    SegmentsOfPrinted(shots, k);
    if |shots| > 1 {
      AtLeastOneEach(shots[1..], k + 1);
    }
  }

  lemma SpaceBehindLast(text: string)
    requires Strip(text) == text && text != ""
    ensures !IsBreak(text[|text| - 1]) && !IsSpace(text[0])
  {
    var w := StripLeftSplits(text);
    var v := StripRightSplits(StripLeft(text));
    hide IsSpace, IsBreak;
    assert |StripLeft(text)| == |text|;
    assert StripLeft(text) == text;
    if IsBreak(text[|text| - 1]) { BreaksAreSpaces(text[|text| - 1]); }
  }

  /** Behind a trimmed text a final newline changes no line that matters. */
  lemma NewlineBehindText(text: string)
    requires Strip(text) == text
    ensures FirstLine(text + "\n") == FirstLine(text) && LaterLines(text + "\n") == LaterLines(text)
  {
    if text == "" {
      assert "" + "\n" == "\n" && LinesFrom("", "\n") == [""] + LinesFrom("", "\n"[1..]);
    } else {
      SpaceBehindLast(text);
      FinalNewline("", text);
    }
  }

  lemma LineStripIsLine(s: string)
    requires OnlyNewlines(s)
    ensures OnlyNewlines(Strip(s))
  {
    hide IsBreak, Strip;
    var w, v := StripIsAPiece(s);
    assert forall c <- Strip(s) :: c in s;
  }

  lemma JoinLengths(x: string, y: string, rest: seq<string>)
    ensures |Join([x] + rest)| - |x| == |Join([y] + rest)| - |y|
  {
    assert ([x] + rest)[1..] == rest && ([y] + rest)[1..] == rest;
  }

  /** The first line of a trimmed text begins like the text. */
  lemma JoinOfText(text: string)
    requires Strip(text) == text && OnlyNewlines(text)
    ensures Join([FirstLine(text)] + LaterLines(text)) == text
    ensures StripLeft(FirstLine(text)) == FirstLine(text)
  {
    hide IsSpace, IsBreak, Strip;
    var f, later := FirstLine(text), LaterLines(text);
    if text == "" {
      assert [f] + later == [""];
    } else {
      SpaceBehindLast(text);
      JoinOfLines("", text);
      SomeLines("", text);
      assert [f] + later == SplitLines(text) && "" + text == text;
      JoinStartsWith(f, later);
    }
  }

  lemma JoinStartsWith(f: string, rest: seq<string>)
    ensures f <= Join([f] + rest)
  {
  }

  lemma ShortenedNot(s: string)
    requires |Strip(s)| >= |s|
    ensures StripRight(s) == s && Strip(s) == s
  {
    hide IsSpace;
    var w, v := StripIsAPiece(s);
    assert w == "" && v == "";
    var u := StripLeftSplits(s);
    assert s == Strip(s);
    var t := StripRightSplits(StripLeft(s));
    assert |StripLeft(s)| == |s|;
  }

  lemma ReadBackPlain(n: nat, text: string)
    requires IsPlain(text)
    ensures ReadBack(n, text) == [Shot(n, text)] && ReadBack(n, text + "\n") == [Shot(n, text)]
  {
    NewlineBehindText(text);
    JoinOfText(text);
    var f, later := FirstLine(text), LaterLines(text);
    assert Strip(f) == f;
    CutWithoutHeader(later);
    assert [] + [f] + later == [f] + later;
    hide IsSpace, Strip, FirstLine, LaterLines, NoHeader, OnlyNewlines, Join;
  }

  lemma OnePieceIsPlain(n: nat, text: string, inPlace: string)
    requires inPlace == text || inPlace == text + "\n"
    requires ReadBack(n, inPlace) == [Shot(n, text)]
    ensures IsPlain(text)
  {
    var f, later := FirstLine(inPlace), LaterLines(inPlace);
    var cuts := Cut(later);
    CutWithoutHeader(later);
    assert |ReadBack(n, inPlace)| == 1 + |cuts.sections|;
    assert cuts.sections == [] && cuts.before == later;
    assert ReadBack(n, inPlace)[0] == ShotOf(Section(n, Strip(f), later), []);
    assert [] + [Strip(f)] + later == [Strip(f)] + later;
    assert text == Strip(Join([Strip(f)] + later));
    StripIsIdempotent(Join([Strip(f)] + later));
    NewlineBehindText(text);
    LinesAreLines("", text);
    OnlyNewlinesInside(f, later);
    hide ReadBack, IsSpace, FirstLine, LaterLines, Cut, NoHeader, Strip;
    JoinOfText(text);
    JoinLengths(f, Strip(f), later);
    StripIsNoLonger(Join([Strip(f)] + later));
    ShortenedNot(f);
  }

  lemma StripIsNoLonger(s: string)
    ensures |Strip(s)| <= |s|
  {
    var w, v := StripIsAPiece(s);
  }

  lemma OnlyNewlinesInside(f: string, later: seq<string>)
    requires IsLine(f) && forall l <- later :: IsLine(l)
    ensures OnlyNewlines(Strip(Join([Strip(f)] + later)))
  {
    hide IsBreak, Strip, Join;
    LineStripIsLine(f);
    JoinHasOnlyNewlines([Strip(f)] + later);
    LineStripIsLine(Join([Strip(f)] + later));
  }

  lemma {:induction false} SegmentsComeBack(shots: seq<Shot>, k: nat)
    requires shots != []
    ensures Segments(SplitLines(Printed(shots, k))) == shots <==> forall shot <- shots :: IsPlain(shot.text)
  {
    hide Printed, Segments, SplitLines, ReadBack, IsPlain;
    SegmentsOfPrinted(shots, k);
    var n, text := shots[0].duration, shots[0].text;
    var rest := shots[1..];
    assert shots == [shots[0]] + rest && shots[0] == Shot(n, text);
    var piece := ReadBack(n, InPlace(shots));
    if IsPlain(text) {
      ReadBackPlain(n, text);
    } else if piece == [Shot(n, text)] {
      OnePieceIsPlain(n, text, InPlace(shots));
    }
    if |shots| > 1 {
      AtLeastOneEach(rest, k + 1);
      SegmentsComeBack(rest, k + 1);
      Cancel(piece, shots[0], Segments(SplitLines(Printed(rest, k + 1))), rest);
      assert forall shot :: shot in shots <==> shot == shots[0] || shot in rest;
    }
  }

  lemma Cancel(piece: seq<Shot>, shot: Shot, more: seq<Shot>, rest: seq<Shot>)
    requires piece != [] && |more| >= |rest|
    ensures piece + more == [shot] + rest <==> piece == [shot] && more == rest
  {
    if piece + more == [shot] + rest {
      assert |piece| == 1;
      assert (piece + more)[0] == shot && (piece + more)[1..] == more && ([shot] + rest)[1..] == rest;
    }
  }

  /** Printing shots and parsing the print gives the same shots exactly for plain texts and durations in range. */
  lemma RoundTripExactly(shots: seq<Shot>)
    ensures Parsed(Printed(shots, 1)) == Ok((shots, false)) <==>
            shots != [] && forall shot <- shots :: 1 <= shot.duration <= 15 && IsPlain(shot.text)
  {
    hide IsPlain;
    if shots != [] {
      SegmentsComeBack(shots, 1);
      AtLeastOneEach(shots, 1);
    }
    hide Printed, Segments, SplitLines;
  }

  /** Lines cut at headers are still lines, and so is the text behind a header. */
  lemma {:induction false} CutKeepsLines(lines: seq<string>)
    requires forall l <- lines :: IsLine(l)
    ensures forall l <- Cut(lines).before :: IsLine(l)
    ensures forall section <- Cut(lines).sections :: IsLine(section.text) && forall l <- section.body :: IsLine(l)
  {
    hide Header, Strip, IsLine;
    if lines != [] {
      assert forall l <- lines[1..] :: l in lines;
      CutKeepsLines(lines[1..]);
      assert lines[0] in lines;
      if Header(Strip(lines[0])).Some? { HeaderTextIsALine(lines[0]); }
    }
  }

  lemma HeaderTextIsALine(line: string)
    requires IsLine(line) && Header(Strip(line)).Some?
    ensures IsLine(Header(Strip(line)).value.1)
  {
    hide IsBreak, Header, IsPattern, Strip;
    var w, v := StripIsAPiece(line);
    var p := HeaderIsPattern(Strip(line));
    assert forall c <- p.text :: c in Spell(p);
    assert forall c <- Strip(line) :: c in line;
  }

  /** What every parsed shot is: trimmed, in range, `\n` its only break. */
  lemma ParsedShots(text: string, shots: seq<Shot>)
    requires Parsed(text) == Ok((shots, false))
    ensures shots != []
    ensures forall shot <- shots ::
      1 <= shot.duration <= 15 && Strip(shot.text) == shot.text && OnlyNewlines(shot.text)
  {
    var lines := SplitLines(text);
    LinesAreLines("", text);
    CutKeepsLines(lines);
    var cuts := Cut(lines);
    PreambleHasOnlyNewlines(cuts.before);
    hide Strip, IsBreak, Cut, SplitLines, Join, Preamble;
    forall i | 0 <= i < |shots|
      ensures Strip(shots[i].text) == shots[i].text && OnlyNewlines(shots[i].text)
    {
      var section := cuts.sections[i];
      assert section in cuts.sections;
      var all := (if i == 0 then Preamble(cuts.before) else []) + [section.text] + section.body;
      assert shots[i].text == Strip(Join(all));
      StripIsIdempotent(Join(all));
      assert forall l <- all :: OnlyNewlines(l);
      JoinHasOnlyNewlines(all);
      LineStripIsLine(Join(all));
    }
  }

  lemma PreambleHasOnlyNewlines(before: seq<string>)
    requires forall l <- before :: IsLine(l)
    ensures forall l <- Preamble(before) :: OnlyNewlines(l)
  {
    JoinHasOnlyNewlines(before);
    LineStripIsLine(Join(before));
  }

  /**
   Shots that were parsed come back from their own print exactly when no first line ends in a
   space and no later line is a header.
   */
  lemma ReprintingParsedShots(text: string, shots: seq<Shot>)
    requires Parsed(text) == Ok((shots, false))
    ensures Parsed(Printed(shots, 1)) == Ok((shots, false)) <==>
            forall shot <- shots ::
              StripRight(FirstLine(shot.text)) == FirstLine(shot.text) && NoHeader(LaterLines(shot.text))
  {
    ParsedShots(text, shots);
    RoundTripExactly(shots);
    hide Parsed, Printed, InRange, Strip, StripRight, OnlyNewlines, FirstLine, LaterLines, NoHeader;
  }

  lemma TwoLinesAndAHeader(block: string)
    requires block == Prefix(1, 3) + ""
    ensures Cut(SplitLines("a " + "\n" + ("b" + "\n" + block))) == Cuts(["a ", "b"], [Section(3, "", [])])
  {
    hide *;
    AThenB(block);
    BlockStartsWithHeader(1, 3, "");
    CutOfBlock(1, 3, "");
    CutBehind(["a ", "b"], SplitLines(block));
    TwoLines();
  }

  lemma AThenB(block: string)
    ensures SplitLines("a " + "\n" + ("b" + "\n" + block)) == ["a ", "b"] + SplitLines(block)
  {
    hide LinesFrom;
    SplitAtNewline("", "a ", "b" + "\n" + block);
    SplitAtNewline("", "b", block);
    OneLine("a ");
    OneLine("b");
    assert ["a "] + (["b"] + SplitLines(block)) == ["a ", "b"] + SplitLines(block);
  }

  /** It does not always hold: a preamble of two lines keeps the space behind its first line. */
  lemma ReprintingCanChangeAShot() returns (text: string, shots: seq<Shot>)
    ensures Parsed(text) == Ok((shots, false))
    ensures Parsed(Printed(shots, 1)) != Ok((shots, false))
  {
    hide Prefix, Header, SplitLines, Strip, Join, IsPlain, Printed, Cut;
    var block := Prefix(1, 3) + "";
    text := "a " + "\n" + ("b" + "\n" + block);
    shots := [Shot(3, "a \nb")];
    TwoLinesAndAHeader(block);
    TwoLines();
    assert ["a \nb"] + [""] + [] == ["a \nb", ""];
    assert Segments(SplitLines(text)) == shots;
    assert shots[0] in shots;
    RoundTripExactly(shots);
  }

  lemma OneLine(s: string)
    requires s != "" && IsLine(s)
    ensures SplitLines(s + "\n") == [s]
  {
    ReadFront("", s, "\n");
    assert "" + s == s && "\n"[1..] == "";
  }

  lemma TwoLines()
    ensures Cut(["a ", "b"]) == Cuts(["a ", "b"], [])
    ensures Strip(Join(["a ", "b"])) == "a \nb"
    ensures Strip(Join(["a \nb", ""])) == "a \nb"
    ensures !IsPlain("a \nb")
    ensures Strip("") == "" && FirstLine("") == "" && LaterLines("") == [] && Cut([]) == Cuts([], [])
  {
    NoHeaders();
    CutTwoLines();
    var t := "a \nb";
    assert StripLeft(t) == t && StripRight(t) == t;
    assert Join(["a ", "b"]) == t && Join([t, ""]) == t + "\n";
    StripRightOf(t, "\n");
    assert StripLeft(t + "\n") == t + "\n";
    PaddedFirstLine();
  }

  lemma NoHeaders()
    ensures Header(Strip("a ")).None? && Header(Strip("b")).None?
  {
    hide Value;
    assert StripLeft("a ") == "a " && StripRight("a ") == "a" && Strip("b") == "b";
  }

  lemma CutTwoLines()
    requires Header(Strip("a ")).None? && Header(Strip("b")).None?
    ensures Cut(["a ", "b"]) == Cuts(["a ", "b"], [])
  {
    hide Header, Strip;
    assert ["a ", "b"][1..] == ["b"] && ["b"][1..] == [];
    assert Cut(["b"]) == Cuts(["b"], []);
  }

  lemma PaddedFirstLine()
    ensures !IsPlain("a \nb")
  {
    hide Header, Strip, StripRight, LinesFrom, NoHeader, LaterLines, OnlyNewlines;
    TrailingSpace();
    SplitAtNewline("", "a ", "b");
    OneLine("a ");
    assert "a " + "\n" + "b" == "a \nb";
    assert FirstLine("a \nb") == "a ";
  }

  lemma TrailingSpace()
    ensures StripRight("a ") == "a" && IsLine("a ")
  {
  }

  // ---------------------------------------------------------------- mentions

  predicate IsAsciiWord(c: char) {
    'a' <= c <= 'z' || 'A' <= c <= 'Z' || IsDigit(c) || c == '_'
  }

  /** The class of a name: ASCII word characters, CJK ideographs, and whatever else `\w` matches
      outside ASCII, given by `alphabet`. */
  predicate IsWord(alphabet: set<char>, c: char) {
    IsAsciiWord(c) || '\U{4E00}' <= c <= '\U{9FFF}' || (c > '\U{007F}' && c in alphabet)
  }

  /** The word characters at the front. */
  function WordRun(alphabet: set<char>, s: string): (r: string)
    ensures |r| <= |s|
  {
    if s != "" && IsWord(alphabet, s[0]) then [s[0]] + WordRun(alphabet, s[1..]) else ""
  }

  lemma {:induction false} WordRunIsARun(alphabet: set<char>, s: string)
    ensures var r := WordRun(alphabet, s);
      s[..|r|] == r && (forall c <- r :: IsWord(alphabet, c)) && (|r| < |s| ==> !IsWord(alphabet, s[|r|]))
  {
    hide IsWord;
    if s != "" && IsWord(alphabet, s[0]) {
      WordRunIsARun(alphabet, s[1..]);
      assert s == [s[0]] + s[1..];
    }
  }

  /** The name mentioned at a position: an `@` not behind an ASCII word character, and the word after it. */
  function MentionAt(alphabet: set<char>, s: string, p: nat): (name: Option<string>)
    requires p < |s|
    ensures name.Some? ==> p + 1 + |name.value| <= |s|
  {
    if s[p] == '@' && (p == 0 || !IsAsciiWord(s[p - 1])) && WordRun(alphabet, s[p + 1..]) != "" then
      Some(WordRun(alphabet, s[p + 1..]))
    else None
  }

  function NameAt(alphabet: set<char>, s: string, p: nat): seq<string>
    requires p < |s|
  {
    match MentionAt(alphabet, s, p) case Some(name) => [name] case None => []
  }

  /** The names mentioned at the first `p` positions. */
  function NamesBefore(alphabet: set<char>, s: string, p: nat): seq<string>
    requires p <= |s|
  {
    if p == 0 then [] else
      NamesBefore(alphabet, s, p - 1) + NameAt(alphabet, s, p - 1)
  }

  function Mentions(alphabet: set<char>, s: string): seq<string> {
    NamesBefore(alphabet, s, |s|)
  }

  /** A mention is an `@` and the longest run of word characters behind it. */
  lemma MentionSpelling(alphabet: set<char>, s: string, p: nat)
    requires p < |s| && MentionAt(alphabet, s, p).Some?
    ensures var name := MentionAt(alphabet, s, p).value;
      && s[p] == '@' && name != "" && s[p + 1..p + 1 + |name|] == name && (forall c <- name :: IsWord(alphabet, c))
      && (p + 1 + |name| < |s| ==> !IsWord(alphabet, s[p + 1 + |name|]))
  {
    hide IsWord, IsAsciiWord, WordRun;
    WordRunIsARun(alphabet, s[p + 1..]);
    var name := MentionAt(alphabet, s, p).value;
    assert s[p + 1..][..|name|] == s[p + 1..p + 1 + |name|];
  }

  /** Where a mention is: an `@` at the start or behind a character that is no ASCII letter, digit or
      underscore, and before one that belongs to a name. */
  lemma MentionExactly(alphabet: set<char>, s: string, p: nat)
    requires p < |s|
    ensures MentionAt(alphabet, s, p).Some? <==>
      && s[p] == '@'
      && (p > 0 ==> !('a' <= s[p - 1] <= 'z' || 'A' <= s[p - 1] <= 'Z' || '0' <= s[p - 1] <= '9' || s[p - 1] == '_'))
      && p + 1 < |s|
      && var c := s[p + 1];
         || 'a' <= c <= 'z' || 'A' <= c <= 'Z' || '0' <= c <= '9' || c == '_'
         || '\U{4E00}' <= c <= '\U{9FFF}' || (c > '\U{007F}' && c in alphabet)
  {
    if p + 1 < |s| {
      assert s[p + 1..][0] == s[p + 1];
    }
  }

  lemma NoMentionAtWord(alphabet: set<char>, s: string, q: nat)
    requires q < |s| && IsWord(alphabet, s[q])
    ensures MentionAt(alphabet, s, q) == None
  {
    hide WordRun;
  }

  /** No mention begins inside a mentioned name, so a scan may continue behind it. */
  lemma {:induction false} NoneInside(alphabet: set<char>, s: string, p: nat, q: nat)
    requires p < |s| && MentionAt(alphabet, s, p).Some? && p + 1 <= q <= p + 1 + |MentionAt(alphabet, s, p).value|
    ensures NamesBefore(alphabet, s, q) == NamesBefore(alphabet, s, p) + [MentionAt(alphabet, s, p).value]
  {
    hide MentionAt, IsWord, NamesBefore;
    NamesStep(alphabet, s, q - 1);
    if q > p + 1 {
      var name := MentionAt(alphabet, s, p).value;
      MentionSpelling(alphabet, s, p);
      assert s[q - 1] == s[p + 1..p + 1 + |name|][q - 2 - p];
      assert IsWord(alphabet, name[q - 2 - p]);
      NoMentionAtWord(alphabet, s, q - 1);
      NoneInside(alphabet, s, p, q - 1);
    }
  }

  /** Where the scan continues. */
  function Behind(alphabet: set<char>, s: string, p: nat): (q: nat)
    requires p < |s|
    ensures p < q <= |s|
  {
    match MentionAt(alphabet, s, p) case Some(name) => p + 1 + |name| case None => p + 1
  }

  lemma NamesBehind(alphabet: set<char>, s: string, p: nat)
    requires p < |s|
    ensures NamesBefore(alphabet, s, Behind(alphabet, s, p)) == NamesBefore(alphabet, s, p) + NameAt(alphabet, s, p)
  {
    hide MentionAt, NamesBefore;
    if MentionAt(alphabet, s, p).Some? {
      NoneInside(alphabet, s, p, Behind(alphabet, s, p));
    } else {
      NamesStep(alphabet, s, p);
    }
  }

  lemma NamesStep(alphabet: set<char>, s: string, p: nat)
    requires p < |s|
    ensures NamesBefore(alphabet, s, p + 1) == NamesBefore(alphabet, s, p) + NameAt(alphabet, s, p)
  {
    hide NameAt;
  }

  lemma DedupOneMore(names: seq<string>, name: string)
    ensures Dedup(names + [name]) == if name in Dedup(names) then Dedup(names) else Dedup(names) + [name]
  {
    assert (names + [name])[..|names|] == names;
  }

  /** Mentioned names without repetitions, first occurrence first. */
  method ExtractMentions(alphabet: set<char>, text: string) returns (names: seq<string>)
    ensures names == Dedup(Mentions(alphabet, text))
    ensures InFirstOrder(names, Mentions(alphabet, text)) && forall n <- Mentions(alphabet, text) :: n in names
  {
    hide MentionAt, NamesBefore, Dedup, InFirstOrder;
    var seen: set<string> := {};
    names := [];
    var p := 0;
    NoNames(alphabet, text);
    while p < |text|
      invariant p <= |text|
      invariant names == Dedup(NamesBefore(alphabet, text, p))
      invariant forall n :: n in seen <==> n in names
    {
      NamesBehind(alphabet, text, p);
      match MentionAt(alphabet, text, p) {
        case Some(name) =>
          DedupOneMore(NamesBefore(alphabet, text, p), name);
          if name !in seen {
            seen := seen + {name};
            names := names + [name];
          }
          p := p + 1 + |name|;
        case None =>
          assert NamesBefore(alphabet, text, p) + [] == NamesBefore(alphabet, text, p);
          p := p + 1;
      }
    }
    DedupKeepsFirsts(Mentions(alphabet, text));
  }

  lemma NoNames(alphabet: set<char>, s: string)
    ensures Dedup(NamesBefore(alphabet, s, 0)) == []
  {
  }

  /** A prompt and its mentions, as the shot list is built from it. */
  method ParsePrompt(alphabet: set<char>, text: string) returns (r: Result<(seq<Shot>, seq<string>, bool), Error>)
    ensures match Parsed(text)
            case Ok((shots, override)) => r == Ok((shots, Dedup(Mentions(alphabet, text)), override))
            case Err(e) => r == Err(e)
  {
    var parsed := ParseShots(text);
    match parsed
    case Err(e) => return Err(e);
    case Ok((shots, override)) =>
      var names := ExtractMentions(alphabet, text);
      return Ok((shots, names, override));
  }

  // ---------------------------------------------------------------- references

  datatype Kind = Character | Scene | Prop

  datatype Reference = Reference(kind: Kind, name: string)

  /** The names registered in the project's three buckets; a missing bucket is an empty one. */
  datatype Buckets = Buckets(characters: set<string>, scenes: set<string>, props: set<string>)

  /** A character before a scene before a prop. */
  function KindOf(b: Buckets, name: string): Option<Kind> {
    if name in b.characters then Some(Character)
    else if name in b.scenes then Some(Scene)
    else if name in b.props then Some(Prop)
    else None
  }

  function Registered(b: Buckets): set<string> {
    b.characters + b.scenes + b.props
  }

  function NamesOf(refs: seq<Reference>): seq<string> {
    seq(|refs|, i requires 0 <= i < |refs| => refs[i].name)
  }

  /** References and missing names are the registered and the other names, each in the given order. */
  method ResolveReferences(names: seq<string>, b: Buckets) returns (refs: seq<Reference>, missing: seq<string>)
    ensures NamesOf(refs) == Select(names, Registered(b), true)
    ensures missing == Select(names, Registered(b), false)
    ensures forall r <- refs :: KindOf(b, r.name) == Some(r.kind)
    ensures forall r <- refs ::
      && (r.kind == Character <==> r.name in b.characters)
      && (r.kind == Scene <==> r.name in b.scenes && r.name !in b.characters)
      && (r.kind == Prop <==> r.name in b.props && r.name !in b.characters && r.name !in b.scenes)
  {
    var buckets := [(Character, b.characters), (Scene, b.scenes), (Prop, b.props)];
    refs, missing := [], [];
    for i := 0 to |names|
      invariant NamesOf(refs) == Select(names[..i], Registered(b), true)
      invariant missing == Select(names[..i], Registered(b), false)
      invariant forall r <- refs :: KindOf(b, r.name) == Some(r.kind)
    {
      var name := names[i];
      assert names[..i + 1][..i] == names[..i];
      var resolved := false;
      var j := 0;
      while j < |buckets| && !resolved
        invariant j <= 3
        invariant resolved ==> j < 3 && name in buckets[j].1
        invariant forall k :: 0 <= k < j ==> name !in buckets[k].1
        decreases 3 - j, !resolved
      {
        if name in buckets[j].1 {
          resolved := true;
        } else {
          j := j + 1;
        }
      }
      assert !resolved ==> name !in buckets[0].1 && name !in buckets[1].1 && name !in buckets[2].1;
      assert resolved ==> KindOf(b, name) == Some(buckets[j].0) by {
        assert j > 0 ==> name !in buckets[0].1;
        assert j > 1 ==> name !in buckets[1].1;
      }
      if resolved {
        assert NamesOf(refs + [Reference(buckets[j].0, name)]) == NamesOf(refs) + [name];
        refs := refs + [Reference(buckets[j].0, name)];
      } else {
        missing := missing + [name];
      }
    }
    assert names[..|names|] == names;
  }

  // ---------------------------------------------------------------- rendering

  /** A text as its mentions and all its other characters. */
  datatype Token = Char(c: char) | Mention(name: string)

  function Tokens(alphabet: set<char>, s: string, p: nat): seq<Token>
    requires p <= |s|
    decreases |s| - p
  {
    if p == |s| then [] else
    match MentionAt(alphabet, s, p)
    case Some(name) => [Mention(name)] + Tokens(alphabet, s, p + 1 + |name|)
    case None => [Char(s[p])] + Tokens(alphabet, s, p + 1)
  }

  /** How a token is written: a mention as its picture number, if it has one, and as it stands otherwise. */
  function Image(token: Token, index: map<string, nat>): string {
    match token
    case Char(c) => [c]
    case Mention(name) => if name in index then "[图" + Decimal(index[name]) + "]" else "@" + name
  }

  function Images(tokens: seq<Token>, index: map<string, nat>): string {
    if tokens == [] then "" else Image(tokens[0], index) + Images(tokens[1..], index)
  }

  function MentionsIn(tokens: seq<Token>): seq<string> {
    if tokens == [] then []
    else (if tokens[0].Mention? then [tokens[0].name] else []) + MentionsIn(tokens[1..])
  }

  /** The numbers are positions in the list, counted from 1; a name listed twice has its last one. */
  ghost predicate IsIndex(index: map<string, nat>, names: seq<string>) {
    && (forall n :: n in index <==> n in names)
    && forall n <- index :: 1 <= index[n] <= |names| && names[index[n] - 1] == n && n !in names[index[n]..]
  }

  method IndexByName(references: seq<Reference>) returns (index: map<string, nat>)
    ensures IsIndex(index, NamesOf(references))
  {
    index := map[];
    assert IsIndex(index, NamesOf(references[..0]));
    hide IsIndex;
    for i := 0 to |references|
      invariant IsIndex(index, NamesOf(references[..i]))
    {
      OneMoreName(index, NamesOf(references[..i]), references[i].name);
      assert NamesOf(references[..i + 1]) == NamesOf(references[..i]) + [references[i].name];
      index := index[references[i].name := i + 1];
    }
    assert references[..|references|] == references;
  }

  lemma OneMoreName(index: map<string, nat>, names: seq<string>, name: string)
    requires IsIndex(index, names)
    ensures IsIndex(index[name := |names| + 1], names + [name])
  {
    var m, more := index[name := |names| + 1], names + [name];
    forall n | n in m
      ensures 1 <= m[n] <= |more| && more[m[n] - 1] == n && n !in more[m[n]..]
    {
      if n != name {
        assert more[m[n]..] == names[m[n]..] + [name];
      }
    }
  }

  function TokenAt(alphabet: set<char>, s: string, p: nat): Token
    requires p < |s|
  {
    match MentionAt(alphabet, s, p) case Some(name) => Mention(name) case None => Char(s[p])
  }

  lemma NextToken(alphabet: set<char>, s: string, p: nat)
    requires p < |s|
    ensures Tokens(alphabet, s, p) == [TokenAt(alphabet, s, p)] + Tokens(alphabet, s, Behind(alphabet, s, p))
  {
    hide MentionAt;
  }

  method RenderPrompt(alphabet: set<char>, text: string, references: seq<Reference>) returns (out: string,
      ghost index: map<string, nat>)
    ensures IsIndex(index, NamesOf(references))
    ensures out == Images(Tokens(alphabet, text, 0), index)
  {
    hide *;
    var indexByName := IndexByName(references);
    index := indexByName;
    out := "";
    var p := 0;
    assert out + Images(Tokens(alphabet, text, 0), index) == Images(Tokens(alphabet, text, 0), index);
    while p < |text|
      invariant p <= |text|
      invariant out + Images(Tokens(alphabet, text, p), index) == Images(Tokens(alphabet, text, 0), index)
    {
      NextImage(alphabet, text, p, index);
      ghost var image, rest := Image(TokenAt(alphabet, text, p), index), Images(Tokens(alphabet, text,
          Behind(alphabet, text, p)), index);
      assert out + (image + rest) == out + image + rest;
      ImageAt(alphabet, text, p, index);
      match MentionAt(alphabet, text, p) {
        case Some(name) =>
          if name in indexByName {
            out := out + ("[图" + Decimal(indexByName[name]) + "]");
          } else {
            out := out + ("@" + name);
          }
          p := p + 1 + |name|;
        case None =>
          out := out + [text[p]];
          p := p + 1;
      }
    }
    NoTokens(alphabet, text, index);
    assert out + "" == out;
  }

  /** Rendering goes from left to right: a mention becomes its number in brackets behind the picture
      sign, or stays as it is if the name has no number; every other character stays. */
  lemma RenderedFrom(alphabet: set<char>, s: string, p: nat, index: map<string, nat>)
    requires p < |s|
    ensures var rest := (q: nat) requires q <= |s| => Images(Tokens(alphabet, s, q), index);
      rest(p) ==
        match MentionAt(alphabet, s, p)
        case None => [s[p]] + rest(p + 1)
        case Some(name) =>
          (if name in index then "[图" + Decimal(index[name]) + "]" else "@" + name) + rest(p + 1 + |name|)
  {
    hide Tokens, Images, Image, TokenAt, Behind, MentionAt, Decimal;
    NextImage(alphabet, s, p, index);
    ImageAt(alphabet, s, p, index);
  }

  lemma NextImage(alphabet: set<char>, s: string, p: nat, index: map<string, nat>)
    requires p < |s|
    ensures Images(Tokens(alphabet, s, p), index) ==
      Image(TokenAt(alphabet, s, p), index) + Images(Tokens(alphabet, s, Behind(alphabet, s, p)), index)
  {
    hide MentionAt, Image, TokenAt, Behind;
    NextToken(alphabet, s, p);
    assert Tokens(alphabet, s, p)[1..] == Tokens(alphabet, s, Behind(alphabet, s, p));
  }

  lemma ImageAt(alphabet: set<char>, s: string, p: nat, index: map<string, nat>)
    requires p < |s|
    ensures match MentionAt(alphabet, s, p)
            case None => Image(TokenAt(alphabet, s, p), index) == [s[p]] && Behind(alphabet, s, p) == p + 1
            case Some(name) =>
              && Behind(alphabet, s, p) == p + 1 + |name|
              && Image(TokenAt(alphabet, s, p), index) ==
                 if name in index then "[图" + Decimal(index[name]) + "]" else "@" + name
  {
    hide MentionAt, Decimal;
  }

  lemma {:induction false} TokensSpell(alphabet: set<char>, s: string, p: nat)
    requires p <= |s|
    ensures Images(Tokens(alphabet, s, p), map[]) == s[p..]
    decreases |s| - p
  {
    hide Decimal, Image, TokenAt, Behind, MentionAt, Tokens;
    if p == |s| {
      assert Tokens(alphabet, s, p) == [] by { NoTokens(alphabet, s, map[]); }
    } else {
      NextImage(alphabet, s, p, map[]);
      TokensSpell(alphabet, s, Behind(alphabet, s, p));
      SpelledAt(alphabet, s, p);
    }
  }

  lemma SpelledAt(alphabet: set<char>, s: string, p: nat)
    requires p < |s|
    ensures s[p..] == Image(TokenAt(alphabet, s, p), map[]) + s[Behind(alphabet, s, p)..]
  {
    hide MentionAt, Decimal, IsWord;
    if MentionAt(alphabet, s, p).Some? {
      MentionSpelling(alphabet, s, p);
      var q := Behind(alphabet, s, p);
      assert s[p..] == ['@'] + s[p + 1..q] + s[q..];
    } else {
      assert s[p..] == [s[p]] + s[p + 1..];
    }
  }

  lemma NoTokens(alphabet: set<char>, s: string, index: map<string, nat>)
    ensures Tokens(alphabet, s, |s|) == [] && Images(Tokens(alphabet, s, |s|), index) == ""
  {
  }

  lemma {:induction false} TokensMention(alphabet: set<char>, s: string, p: nat)
    requires p <= |s|
    ensures NamesBefore(alphabet, s, p) + MentionsIn(Tokens(alphabet, s, p)) == Mentions(alphabet, s)
    decreases |s| - p
  {
    hide Tokens, MentionAt, NamesBefore, Behind;
    if p == |s| {
      assert Tokens(alphabet, s, p) == [] by { NoTokens(alphabet, s, map[]); }
    } else {
      var q := Behind(alphabet, s, p);
      NextMention(alphabet, s, p);
      TokensMention(alphabet, s, q);
      NamesBehind(alphabet, s, p);
      hide MentionsIn, NameAt;
      var rest := MentionsIn(Tokens(alphabet, s, q));
      Regroup(NamesBefore(alphabet, s, p), NameAt(alphabet, s, p), rest);
    }
  }

  lemma NextMention(alphabet: set<char>, s: string, p: nat)
    requires p < |s|
    ensures MentionsIn(Tokens(alphabet, s, p)) ==
      NameAt(alphabet, s, p) + MentionsIn(Tokens(alphabet, s, Behind(alphabet, s, p)))
  {
    NextToken(alphabet, s, p);
    hide Tokens, MentionAt, Behind;
    var later := Tokens(alphabet, s, Behind(alphabet, s, p));
    assert ([TokenAt(alphabet, s, p)] + later)[1..] == later;
  }

  /** The tokens spell the text, and their mentions are the text's. */
  lemma TokensAreTheText(alphabet: set<char>, s: string)
    ensures Images(Tokens(alphabet, s, 0), map[]) == s
    ensures MentionsIn(Tokens(alphabet, s, 0)) == Mentions(alphabet, s)
  {
    hide *;
    TokensSpell(alphabet, s, 0);
    TokensMention(alphabet, s, 0);
    NamesStart(alphabet, s);
  }

  /**
   A text rendered with the references resolved from its own mentions: exactly the registered
   names have a number, and the numbers are the ranks of these names by first occurrence.
   */
  lemma OwnMentionsAreRanked(alphabet: set<char>, text: string, b: Buckets, refs: seq<Reference>,
      index: map<string, nat>)
    requires NamesOf(refs) == Select(Dedup(Mentions(alphabet, text)), Registered(b), true)
    requires IsIndex(index, NamesOf(refs))
    ensures forall n :: n in index <==> n in Mentions(alphabet, text) && KindOf(b, n).Some?
    ensures forall n <- index :: 1 <= index[n] <= |index|
    ensures forall m, n :: m in index && n in index ==>
      (index[m] < index[n] <==> First(Mentions(alphabet, text), m) < First(Mentions(alphabet, text), n))
  {
    hide *;
    var names := Mentions(alphabet, text);
    ListedNames(names, b);
    RankIsOrder(NamesOf(refs), names, index);
    CountDistinct(NamesOf(refs), names, index);
  }

  lemma ListedNames(names: seq<string>, b: Buckets)
    ensures var listed := Select(Dedup(names), Registered(b), true);
      && InFirstOrder(listed, names)
      && forall n :: n in listed <==> n in names && KindOf(b, n).Some?
  {
    DedupKeepsFirsts(names);
    SelectKeepsOrder(Dedup(names), names, Registered(b), true);
    InOrderMeansIn(Dedup(names), names);
    hide Select, Dedup, First, InFirstOrder;
  }

  lemma NamesStart(alphabet: set<char>, s: string)
    ensures NamesBefore(alphabet, s, 0) == [] && s[0..] == s
  {
  }

  /** In a list ordered by first occurrence, position is order of first occurrence. */
  lemma RankIsOrder(listed: seq<string>, names: seq<string>, index: map<string, nat>)
    requires InFirstOrder(listed, names) && IsIndex(index, listed)
    ensures forall n :: n in index <==> n in listed
    ensures forall m, n :: m in index && n in index ==> (index[m] < index[n] <==> First(names, m) < First(names, n))
  {
    assert forall n :: n in index <==> n in listed;
    InOrderMeansIn(listed, names);
    hide *;
    forall m, n | m in index && n in index
      ensures index[m] < index[n] <==> First(names, m) < First(names, n)
    {
      RanksAgree(listed, names, index, m, n);
    }
  }

  lemma RanksAgree(listed: seq<string>, names: seq<string>, index: map<string, nat>, m: string, n: string)
    requires InFirstOrder(listed, names) && IsIndex(index, listed) && m in index && n in index
    ensures m in names && n in names
    ensures index[m] < index[n] <==> First(names, m) < First(names, n)
  {
    hide *;
    IndexPoints(index, listed, m);
    IndexPoints(index, listed, n);
    EarlierIsFirst(listed, names, index[m] - 1, index[n] - 1);
  }

  lemma IndexPoints(index: map<string, nat>, listed: seq<string>, n: string)
    requires IsIndex(index, listed) && n in index
    ensures 1 <= index[n] <= |listed| && listed[index[n] - 1] == n
  {
  }

  lemma EarlierIsFirst(listed: seq<string>, names: seq<string>, i: nat, j: nat)
    requires InFirstOrder(listed, names) && i < |listed| && j < |listed|
    ensures listed[i] in names && listed[j] in names
    ensures i < j <==> First(names, listed[i]) < First(names, listed[j])
  {
    hide First;
  }

  /** The numbers have no gaps: there are as many as names. */
  lemma CountDistinct(listed: seq<string>, names: seq<string>, index: map<string, nat>)
    requires InFirstOrder(listed, names) && IsIndex(index, listed)
    ensures |index| == |listed| && forall n <- index :: 1 <= index[n] <= |index|
  {
    Distinct(listed, names);
    assert index.Keys == AsSet(listed);
    SizeOf(listed);
  }

  lemma Distinct(listed: seq<string>, names: seq<string>)
    requires InFirstOrder(listed, names)
    ensures forall i, k :: 0 <= i < k < |listed| ==> listed[i] != listed[k]
  {
  }

  function AsSet(names: seq<string>): set<string> {
    set n | n in names
  }

  lemma AsSetSnoc(front: seq<string>, last: string)
    ensures AsSet(front + [last]) == AsSet(front) + {last}
  {
    forall n
      ensures n in front + [last] <==> n in front || n == last
    {
    }
  }

  lemma {:induction false} SizeOf(listed: seq<string>)
    requires forall i, k :: 0 <= i < k < |listed| ==> listed[i] != listed[k]
    ensures |AsSet(listed)| == |listed|
  {
    if listed != [] {
      var front, last := listed[..|listed| - 1], listed[|listed| - 1];
      assert listed == front + [last] && last !in front;
      assert last !in AsSet(front);
      hide AsSet;
      SizeOf(front);
      AsSetSnoc(front, last);
    }
  }
}
