/** The few string operations of Python that the models below share. */
module PythonText {
  /** `str.isspace`, which is also the class `\s` of the `re` module. */
  predicate IsSpace(c: char) {
    || '\U{0009}' <= c <= '\U{000D}' || '\U{001C}' <= c <= '\U{0020}'
    || c == '\U{0085}' || c == '\U{00A0}' || c == '\U{1680}' || '\U{2000}' <= c <= '\U{200A}'
    || c == '\U{2028}' || c == '\U{2029}' || c == '\U{202F}' || c == '\U{205F}' || c == '\U{3000}'
  }

  /** `str.lstrip`. */
  function StripLeft(s: string): string {
    if s != "" && IsSpace(s[0]) then StripLeft(s[1..]) else s
  }

  /** `str.rstrip`. */
  function StripRight(s: string): string {
    if s != "" && IsSpace(s[|s| - 1]) then StripRight(s[..|s| - 1]) else s
  }

  /** `str.strip`. */
  function Strip(s: string): string {
    StripRight(StripLeft(s))
  }

  ghost predicate AllSpaces(s: string) {
    forall c <- s :: IsSpace(c)
  }

  lemma {:induction false} StripLeftOf(w: string, s: string)
    requires AllSpaces(w)
    ensures StripLeft(w + s) == StripLeft(s)
  {
    hide IsSpace;
    if w == "" {
      assert w + s == s;
    } else {
      assert IsSpace(w[0]) && (w + s)[1..] == w[1..] + s;
      StripLeftOf(w[1..], s);
    }
  }

  lemma {:induction false} StripRightOf(s: string, w: string)
    requires AllSpaces(w)
    ensures StripRight(s + w) == StripRight(s)
  {
    hide IsSpace;
    if w == "" {
      assert s + w == s;
    } else {
      assert IsSpace(w[|w| - 1]) && (s + w)[..|s + w| - 1] == s + w[..|w| - 1];
      StripRightOf(s, w[..|w| - 1]);
    }
  }

  /** The spaces that `lstrip` takes away, and what it leaves. */
  lemma {:induction false} StripLeftSplits(s: string) returns (w: string)
    ensures AllSpaces(w) && s == w + StripLeft(s)
    ensures StripLeft(s) == "" || !IsSpace(StripLeft(s)[0])
  {
    hide IsSpace;
    if s != "" && IsSpace(s[0]) {
      var v := StripLeftSplits(s[1..]);
      w := [s[0]] + v;
    } else {
      w := "";
    }
  }

  lemma {:induction false} StripRightSplits(s: string) returns (w: string)
    ensures AllSpaces(w) && s == StripRight(s) + w
    ensures StripRight(s) == "" || !IsSpace(StripRight(s)[|StripRight(s)| - 1])
  {
    hide IsSpace;
    if s != "" && IsSpace(s[|s| - 1]) {
      var v := StripRightSplits(s[..|s| - 1]);
      w := v + [s[|s| - 1]];
    } else {
      w := "";
    }
  }

  lemma StripRightOfSpaces(w: string)
    requires AllSpaces(w)
    ensures StripRight(w) == ""
  {
    StripRightOf("", w);
    assert "" + w == w;
  }

  /** The white space of Unicode, as Python counts it. */
  const WHITESPACE: string :=
    "\t\n\U{000B}\U{000C}\r\U{001C}\U{001D}\U{001E}\U{001F} \U{0085}\U{00A0}\U{1680}" +
    "\U{2000}\U{2001}\U{2002}\U{2003}\U{2004}\U{2005}\U{2006}\U{2007}\U{2008}\U{2009}\U{200A}" +
    "\U{2028}\U{2029}\U{202F}\U{205F}\U{3000}"

  lemma SpacesAreListed(c: char)
    ensures IsSpace(c) <==> c in WHITESPACE
  {
  }

  /** Stripping takes all white space from both ends and nothing else. */
  lemma StripTakesSpaces(a: string, t: string, b: string)
    requires (forall c <- a :: c in WHITESPACE) && (forall c <- b :: c in WHITESPACE)
    requires t == "" || (t[0] !in WHITESPACE && t[|t| - 1] !in WHITESPACE)
    ensures Strip(a + t + b) == t
  {
    hide IsSpace, WHITESPACE, StripLeft, StripRight;
    forall c: char
      ensures IsSpace(c) <==> c in WHITESPACE
    {
      SpacesAreListed(c);
    }
    assert a + t + b == a + (t + b);
    StripLeftOf(a, t + b);
    if t == "" {
      assert t + b == b;
      StripLeftOf(b, "");
      assert b + "" == b;
      NothingToStrip("");
    } else {
      assert (t + b)[0] == t[0];
      NothingToStrip(t);
      NothingToStripLeft(t + b);
      StripRightOf(t, b);
    }
  }

  lemma NothingToStrip(t: string)
    requires t == "" || !IsSpace(t[|t| - 1])
    ensures StripRight(t) == t && StripLeft("") == ""
  {
  }

  lemma NothingToStripLeft(t: string)
    requires t != "" && !IsSpace(t[0])
    ensures StripLeft(t) == t
  {
  }

  /** Appending behind a text that does not end in a space moves no space of the front. */
  lemma {:induction false} StripRightBehind(x: string, s: string)
    requires StripRight(s) != ""
    ensures StripRight(x + s) == x + StripRight(s)
  {
    hide IsSpace, AllSpaces;
    var w := StripRightSplits(s);
    var r := StripRight(s);
    assert x + s == x + r + w;
    StripRightOf(x + r, w);
    assert (x + r)[|x + r| - 1] == r[|r| - 1];
  }

  lemma {:induction false} StripRightLeaves(s: string, i: nat)
    requires i < |s| && !IsSpace(s[i])
    ensures StripRight(s) != ""
  {
    hide IsSpace;
    if IsSpace(s[|s| - 1]) {
      StripRightLeaves(s[..|s| - 1], i);
    }
  }

  /** The ends can be stripped in either order. */
  lemma StripsCommute(s: string)
    ensures StripRight(StripLeft(s)) == StripLeft(StripRight(s))
  {
    hide IsSpace;
    var w := StripLeftSplits(s);
    var m := StripLeft(s);
    if m == "" {
      assert s == w;
      StripRightOfSpaces(s);
    } else {
      var v := StripRightSplits(m);
      StripRightLeaves(m, 0);
      StripRightBehind(w, m);
      StripLeftOf(w, StripRight(m));
      assert StripRight(m)[0] == m[0];
    }
  }

  lemma StripIsIdempotent(s: string)
    ensures Strip(Strip(s)) == Strip(s)
  {
    hide IsSpace;
    var w := StripLeftSplits(s);
    var v := StripRightSplits(StripLeft(s));
    StripsCommute(s);
    var u := StripLeftSplits(StripRight(s));
  }

  /** What `strip` returns is a piece of the text. */
  lemma StripIsAPiece(s: string) returns (w: string, v: string)
    ensures s == w + Strip(s) + v && AllSpaces(w) && AllSpaces(v)
  {
    hide IsSpace;
    w := StripLeftSplits(s);
    v := StripRightSplits(StripLeft(s));
  }

  predicate IsDigit(c: char) {
    '0' <= c <= '9'
  }

  // Zeros of the blocks of ten decimal digits (category Nd of Unicode 14): the zero of the block
  // that a code point is in, -1 if it is in none.

  function FirstZeros(c: int): (z: int)
    ensures z >= 0 ==> z <= c < z + 10
  {
    if 0x0030 <= c < 0x003A then 0x0030
    else if 0x0660 <= c < 0x066A then 0x0660
    else if 0x06F0 <= c < 0x06FA then 0x06F0
    else if 0x07C0 <= c < 0x07CA then 0x07C0
    else if 0x0966 <= c < 0x0970 then 0x0966
    else if 0x09E6 <= c < 0x09F0 then 0x09E6
    else if 0x0A66 <= c < 0x0A70 then 0x0A66
    else if 0x0AE6 <= c < 0x0AF0 then 0x0AE6
    else if 0x0B66 <= c < 0x0B70 then 0x0B66
    else if 0x0BE6 <= c < 0x0BF0 then 0x0BE6
    else if 0x0C66 <= c < 0x0C70 then 0x0C66
    else if 0x0CE6 <= c < 0x0CF0 then 0x0CE6
    else if 0x0D66 <= c < 0x0D70 then 0x0D66
    else if 0x0DE6 <= c < 0x0DF0 then 0x0DE6
    else if 0x0E50 <= c < 0x0E5A then 0x0E50
    else if 0x0ED0 <= c < 0x0EDA then 0x0ED0
    else if 0x0F20 <= c < 0x0F2A then 0x0F20
    else if 0x1040 <= c < 0x104A then 0x1040
    else if 0x1090 <= c < 0x109A then 0x1090
    else if 0x17E0 <= c < 0x17EA then 0x17E0
    else if 0x1810 <= c < 0x181A then 0x1810
    else if 0x1946 <= c < 0x1950 then 0x1946
    else -1
  }

  function SecondZeros(c: int): (z: int)
    ensures z >= 0 ==> z <= c < z + 10
  {
    if 0x19D0 <= c < 0x19DA then 0x19D0
    else if 0x1A80 <= c < 0x1A8A then 0x1A80
    else if 0x1A90 <= c < 0x1A9A then 0x1A90
    else if 0x1B50 <= c < 0x1B5A then 0x1B50
    else if 0x1BB0 <= c < 0x1BBA then 0x1BB0
    else if 0x1C40 <= c < 0x1C4A then 0x1C40
    else if 0x1C50 <= c < 0x1C5A then 0x1C50
    else if 0xA620 <= c < 0xA62A then 0xA620
    else if 0xA8D0 <= c < 0xA8DA then 0xA8D0
    else if 0xA900 <= c < 0xA90A then 0xA900
    else if 0xA9D0 <= c < 0xA9DA then 0xA9D0
    else if 0xA9F0 <= c < 0xA9FA then 0xA9F0
    else if 0xAA50 <= c < 0xAA5A then 0xAA50
    else if 0xABF0 <= c < 0xABFA then 0xABF0
    else if 0xFF10 <= c < 0xFF1A then 0xFF10
    else if 0x104A0 <= c < 0x104AA then 0x104A0
    else if 0x10D30 <= c < 0x10D3A then 0x10D30
    else if 0x11066 <= c < 0x11070 then 0x11066
    else if 0x110F0 <= c < 0x110FA then 0x110F0
    else if 0x11136 <= c < 0x11140 then 0x11136
    else if 0x111D0 <= c < 0x111DA then 0x111D0
    else if 0x112F0 <= c < 0x112FA then 0x112F0
    else -1
  }

  function ThirdZeros(c: int): (z: int)
    ensures z >= 0 ==> z <= c < z + 10
  {
    if 0x11450 <= c < 0x1145A then 0x11450
    else if 0x114D0 <= c < 0x114DA then 0x114D0
    else if 0x11650 <= c < 0x1165A then 0x11650
    else if 0x116C0 <= c < 0x116CA then 0x116C0
    else if 0x11730 <= c < 0x1173A then 0x11730
    else if 0x118E0 <= c < 0x118EA then 0x118E0
    else if 0x11950 <= c < 0x1195A then 0x11950
    else if 0x11C50 <= c < 0x11C5A then 0x11C50
    else if 0x11D50 <= c < 0x11D5A then 0x11D50
    else if 0x11DA0 <= c < 0x11DAA then 0x11DA0
    else if 0x16A60 <= c < 0x16A6A then 0x16A60
    else if 0x16AC0 <= c < 0x16ACA then 0x16AC0
    else if 0x16B50 <= c < 0x16B5A then 0x16B50
    else if 0x1D7CE <= c < 0x1D7D8 then 0x1D7CE
    else if 0x1D7D8 <= c < 0x1D7E2 then 0x1D7D8
    else if 0x1D7E2 <= c < 0x1D7EC then 0x1D7E2
    else if 0x1D7EC <= c < 0x1D7F6 then 0x1D7EC
    else if 0x1D7F6 <= c < 0x1D800 then 0x1D7F6
    else if 0x1E140 <= c < 0x1E14A then 0x1E140
    else if 0x1E2F0 <= c < 0x1E2FA then 0x1E2F0
    else if 0x1E950 <= c < 0x1E95A then 0x1E950
    else if 0x1FBF0 <= c < 0x1FBFA then 0x1FBF0
    else -1
  }

  function BlockZero(c: int): (z: int)
    ensures z >= 0 ==> z <= c < z + 10
  {
    if c < 0x19D0 then FirstZeros(c) else if c < 0x11450 then SecondZeros(c) else ThirdZeros(c)
  }

  /** The class `\d` of the `re` module. */
  predicate IsDecimal(c: char) {
    BlockZero(c as int) >= 0
  }

  function DigitValue(c: char): (v: nat)
    requires IsDecimal(c)
    ensures v < 10
  {
    c as int - BlockZero(c as int)
  }

  lemma DigitsAreDecimal(c: char)
    requires IsDigit(c)
    ensures IsDecimal(c) && DigitValue(c) == (c - '0') as nat
  {
  }

  function Digit(d: nat): char
    requires d < 10
  {
    '0' + d as char
  }

  /** `str` of a number. */
  function Decimal(n: nat): (s: string)
    ensures s != "" && forall c <- s :: IsDigit(c)
  {
    if n < 10 then [Digit(n)] else Decimal(n / 10) + [Digit(n % 10)]
  }

  /** `int` of a run of decimal digits. */
  function Value(s: string): nat
    requires forall c <- s :: IsDecimal(c)
  {
    if s == "" then 0 else
      assert IsDecimal(s[|s| - 1]);
      10 * Value(s[..|s| - 1]) + DigitValue(s[|s| - 1])
  }

  lemma DecimalIsDecimal(n: nat)
    ensures forall c <- Decimal(n) :: IsDecimal(c)
  {
    hide BlockZero, IsDecimal, Decimal, DigitValue;
    forall c <- Decimal(n)
      ensures IsDecimal(c)
    {
      DigitsAreDecimal(c);
    }
  }

  lemma {:induction false} ValueOfDecimal(n: nat)
    ensures forall c <- Decimal(n) :: IsDecimal(c)
    ensures Value(Decimal(n)) == n
  {
    hide BlockZero, IsDecimal, DigitValue;
    DecimalIsDecimal(n);
    DigitsAreDecimal(Digit(n % 10));
    if n < 10 {
      assert Decimal(n) == [Digit(n)] && Value([]) == 0;
    } else {
      var d := Decimal(n);
      assert d[..|d| - 1] == Decimal(n / 10) && d[|d| - 1] == Digit(n % 10);
      ValueOfDecimal(n / 10);
    }
  }

  lemma DecimalIsInjective(m: nat, n: nat)
    requires Decimal(m) == Decimal(n)
    ensures m == n
  {
    hide *;
    ValueOfDecimal(m);
    ValueOfDecimal(n);
  }
}
