/** String helpers with JavaScript semantics: `trim`, decimal rendering of
    numbers, `padStart`, and word lists joined by single spaces. */
module Text {
  import opened Wrappers

  /** JavaScript truthiness of an optional string: present and not empty. */
  predicate Truthy(s: Option<string>) {
    s.Some? && s.value != ""
  }

  /** JavaScript `s || fallback` on an optional string. */
  function OrElse(s: Option<string>, fallback: string): string {
    if Truthy(s) then s.value else fallback
  }

  /** The code points JavaScript's `String.prototype.trim` strips: the
      ECMAScript WhiteSpace and LineTerminator characters. */
  predicate IsWhitespace(c: char) {
    || c == '\t' || c == '\n' || c == '\U{000B}' || c == '\U{000C}' || c == '\r' || c == ' '
    || c == '\U{00A0}' || c == '\U{1680}' || ('\U{2000}' <= c <= '\U{200A}')
    || c == '\U{2028}' || c == '\U{2029}' || c == '\U{202F}' || c == '\U{205F}'
    || c == '\U{3000}' || c == '\U{FEFF}'
  }

  /** Every character is whitespace (the empty string included). */
  predicate IsBlank(s: string) {
    forall k :: 0 <= k < |s| ==> IsWhitespace(s[k])
  }

  /** A non-empty string that neither starts nor ends with whitespace. */
  predicate IsTrimmed(s: string) {
    s != [] && !IsWhitespace(s[0]) && !IsWhitespace(s[|s| - 1])
  }

  /** The length of the longest blank prefix. */
  function LeadingBlanks(s: string): (n: nat)
    ensures n <= |s| && IsBlank(s[..n])
    ensures n < |s| ==> !IsWhitespace(s[n])
  {
    if s != [] && IsWhitespace(s[0]) then
      var m := LeadingBlanks(s[1..]);
      BlankPrefixGrows(s, m);
      1 + m
    else 0
  }

  lemma BlankPrefixGrows(s: string, m: nat)
    requires s != [] && IsWhitespace(s[0]) && m < |s| && IsBlank(s[1..][..m])
    ensures IsBlank(s[..1 + m])
  {
    forall i | 1 <= i < 1 + m
      ensures IsWhitespace(s[i])
    {
      assert s[i] == s[1..][..m][i - 1];
    }
  }

  /** The length of the longest blank suffix. */
  function TrailingBlanks(s: string): (n: nat)
    ensures n <= |s| && IsBlank(s[|s| - n..])
    ensures n < |s| ==> !IsWhitespace(s[|s| - n - 1])
  {
    if s != [] && IsWhitespace(s[|s| - 1]) then
      var m := TrailingBlanks(s[..|s| - 1]);
      BlankSuffixGrows(s, m);
      1 + m
    else 0
  }

  lemma BlankSuffixGrows(s: string, m: nat)
    requires s != [] && IsWhitespace(s[|s| - 1]) && m < |s|
    requires IsBlank(s[..|s| - 1][|s| - 1 - m..])
    ensures IsBlank(s[|s| - (1 + m)..])
  {
    var init := s[..|s| - 1];
    forall i | |s| - (1 + m) <= i < |s| - 1
      ensures IsWhitespace(s[i])
    {
      assert s[i] == init[|init| - m..][i - (|s| - (1 + m))];
    }
  }

  /** A character of a blank slice is whitespace. */
  lemma InBlankSlice(s: string, lo: nat, i: nat)
    requires lo <= i < |s| && IsBlank(s[lo..])
    ensures IsWhitespace(s[i])
  {
    assert s[i] == s[lo..][i - lo];
  }

  /** A blank suffix stops before any non-whitespace character. */
  lemma BlankSuffixAfter(s: string, j: nat, k: nat)
    requires j <= |s| && k < |s| && IsBlank(s[|s| - j..]) && !IsWhitespace(s[k])
    ensures k < |s| - j
  {
    if k >= |s| - j {
      InBlankSlice(s, |s| - j, k);
    }
  }

  /** JavaScript `s.trim()`: the result is empty exactly for blank input, and
      otherwise is a non-blank infix of `s` with no whitespace at either end
      and only whitespace around it. */
  function Trim(s: string): (r: string)
    ensures r == [] <==> IsBlank(s)
    ensures r != [] ==> IsTrimmed(r)
    ensures var k := LeadingBlanks(s);
      k + |r| <= |s| && r == s[k..k + |r|] && IsBlank(s[..k]) && IsBlank(s[k + |r|..])
  {
    var k := LeadingBlanks(s);
    if k == |s| then
      assert s[..k] == s;
      []
    else
      var j := TrailingBlanks(s);
      BlankSuffixAfter(s, j, k);
      s[k..|s| - j]
  }

  /** Trimming a trimmed string followed by whitespace gives the string back. */
  lemma TrimPadded(s: string, pad: string)
    requires IsTrimmed(s) && IsBlank(pad)
    ensures Trim(s + pad) == s
  {
    var t := s + pad;
    assert LeadingBlanks(t) == 0 by {
      assert t[0] == s[0];
    }
    var j := TrailingBlanks(t);
    BlankSuffixAfter(t, j, |s| - 1);
    assert t[..|s|] == s;
  }

  /** A trimmed string followed by one space trims back to itself. */
  lemma TrimOneSpace(w: string, s: string)
    requires IsTrimmed(s) && w == s + " "
    ensures Trim(w) == s
  {
    assert IsBlank(" ");
    TrimPadded(s, " ");
  }

  // ---------------------------------------------------------------------------
  // Words and single-space separation

  /** A non-empty run of non-whitespace characters. */
  predicate IsWord(w: string) {
    w != [] && forall k :: 0 <= k < |w| ==> !IsWhitespace(w[k])
  }

  /** A non-empty run of printable ASCII characters other than the space is
      a word. */
  lemma PrintableWord(w: string)
    requires w != [] && forall k :: 0 <= k < |w| ==> '!' <= w[k] <= '~'
    ensures IsWord(w)
  {
  }

  predicate AllWords(ws: seq<string>) {
    forall i :: 0 <= i < |ws| ==> IsWord(ws[i])
  }

  lemma AllWordsConcat(a: seq<string>, b: seq<string>)
    requires AllWords(a) && AllWords(b)
    ensures AllWords(a + b)
  {
    forall i | 0 <= i < |a + b| ensures IsWord((a + b)[i]) {
      if i < |a| {
        assert (a + b)[i] == a[i];
      } else {
        assert (a + b)[i] == b[i - |a|];
      }
    }
  }

  /** No two adjacent whitespace characters. */
  predicate SingleSpaced(s: string) {
    forall k :: 0 < k < |s| ==> !(IsWhitespace(s[k - 1]) && IsWhitespace(s[k]))
  }

  /** The words separated by one space each. */
  function Join(ws: seq<string>): string {
    if |ws| == 0 then "" else if |ws| == 1 then ws[0] else ws[0] + " " + Join(ws[1..])
  }

  /** Every word followed by one space: the shape a string has when it is built
      by appending `word + ' '` pieces. */
  function Spaced(ws: seq<string>): string {
    if |ws| == 0 then "" else ws[0] + " " + Spaced(ws[1..])
  }

  lemma {:induction false} SpacedAppend(a: seq<string>, b: seq<string>)
    ensures Spaced(a + b) == Spaced(a) + Spaced(b)
    decreases |a|
  {
    if a == [] {
      assert a + b == b;
    } else {
      assert (a + b)[1..] == a[1..] + b;
      SpacedAppend(a[1..], b);
    }
  }

  lemma {:induction false} SpacedIsJoinThenSpace(ws: seq<string>)
    requires |ws| > 0
    ensures Spaced(ws) == Join(ws) + " "
    decreases |ws|
  {
    if |ws| > 1 {
      SpacedIsJoinThenSpace(ws[1..]);
    }
  }

  /** A non-empty join followed by one more word, each followed by a space. */
  lemma JoinThenWordSpaced(ws: seq<string>, w: string)
    requires |ws| > 0
    ensures Join(ws) + " " + w + " " == Spaced(ws + [w])
  {
    SpacedAppend(ws, [w]);
    SpacedIsJoinThenSpace(ws);
    assert Spaced([w]) == w + " " + "";
  }

  lemma JoinCons(w: string, ws: seq<string>)
    requires |ws| > 0
    ensures Join([w] + ws) == w + " " + Join(ws)
  {
    assert ([w] + ws)[1..] == ws;
  }

  lemma {:induction false} JoinAppend(a: seq<string>, b: seq<string>)
    requires |a| > 0 && |b| > 0
    ensures Join(a + b) == Join(a) + " " + Join(b)
    decreases |a|
  {
    if |a| == 1 {
      assert a + b == [a[0]] + b;
      JoinCons(a[0], b);
    } else {
      assert (a + b)[1..] == a[1..] + b;
      JoinAppend(a[1..], b);
    }
  }

  /** Concatenating two single-spaced strings keeps single spacing when the
      seam does not put two whitespace characters side by side. */
  lemma SingleSpacedConcat(a: string, b: string)
    requires SingleSpaced(a) && SingleSpaced(b)
    requires a != [] && b != [] ==> !(IsWhitespace(a[|a| - 1]) && IsWhitespace(b[0]))
    ensures SingleSpaced(a + b)
  {
    var s := a + b;
    forall k | 0 < k < |s|
      ensures !(IsWhitespace(s[k - 1]) && IsWhitespace(s[k]))
    {
      if k < |a| {
        assert s[k - 1] == a[k - 1] && s[k] == a[k];
      } else if k == |a| {
        assert s[k - 1] == a[|a| - 1] && s[k] == b[0];
      } else {
        assert s[k - 1] == b[k - 1 - |a|] && s[k] == b[k - |a|];
      }
    }
  }

  /** A non-empty join of words is trimmed and single-spaced. */
  lemma {:induction false} JoinShape(ws: seq<string>)
    requires |ws| > 0 && AllWords(ws)
    ensures IsTrimmed(Join(ws))
    ensures SingleSpaced(Join(ws))
    decreases |ws|
  {
    if |ws| > 1 {
      var rest := Join(ws[1..]);
      JoinShape(ws[1..]);
      var j := ws[0] + " " + rest;
      assert Join(ws) == j;
      assert IsWord(ws[0]);
      forall k | 0 < k < |j|
        ensures !(IsWhitespace(j[k - 1]) && IsWhitespace(j[k]))
      {
        if k < |ws[0]| {
          assert j[k] == ws[0][k];
        } else if k == |ws[0]| {
          assert j[k - 1] == ws[0][|ws[0]| - 1];
        } else if k == |ws[0]| + 1 {
          assert j[k] == rest[0];
        } else {
          assert j[k - 1] == rest[k - 2 - |ws[0]|];
          assert j[k] == rest[k - 1 - |ws[0]|];
        }
      }
      assert j[0] == ws[0][0];
      assert j[|j| - 1] == rest[|rest| - 1];
    }
  }

  /** Trimming a `word + ' '` sequence gives the words joined by single spaces. */
  lemma TrimSpaced(ws: seq<string>)
    requires AllWords(ws)
    ensures Trim(Spaced(ws)) == Join(ws)
  {
    if |ws| > 0 {
      SpacedIsJoinThenSpace(ws);
      JoinShape(ws);
      TrimPadded(Join(ws), " ");
    }
  }

  // ---------------------------------------------------------------------------
  // Decimal numbers

  predicate IsDigit(c: char) {
    '0' <= c <= '9'
  }

  predicate IsDigits(s: string) {
    forall k :: 0 <= k < |s| ==> IsDigit(s[k])
  }

  function DigitChar(d: nat): (c: char)
    requires d < 10
    ensures IsDigit(c) && c as int - '0' as int == d
  {
    ('0' as int + d) as char
  }

  /** `String(n)` for a non-negative integer: decimal without leading zeros. */
  function NatToString(n: nat): (r: string)
    ensures |r| > 0 && IsDigits(r)
    ensures r[0] == '0' ==> n == 0
    ensures |r| > 1 ==> r[0] != '0'
  {
    if n < 10 then [DigitChar(n)] else NatToString(n / 10) + [DigitChar(n % 10)]
  }

  /** `String(i)` for an integer. */
  function IntToString(i: int): (r: string)
    ensures |r| > 0
    ensures i < 0 <==> r[0] == '-'
  {
    if i < 0 then "-" + NatToString(-i) else NatToString(i)
  }

  /** The number a string of decimal digits denotes; leading zeros add nothing. */
  function DigitsValue(s: string): nat
    requires IsDigits(s)
  {
    if s == [] then 0
    else 10 * DigitsValue(s[..|s| - 1]) + (s[|s| - 1] as int - '0' as int)
  }

  /** Reading back what `NatToString` wrote gives the number. */
  lemma {:induction false} NatToStringRoundTrip(n: nat)
    ensures DigitsValue(NatToString(n)) == n
  {
    if n >= 10 {
      var s := NatToString(n);
      assert s[..|s| - 1] == NatToString(n / 10);
      NatToStringRoundTrip(n / 10);
    }
  }

  /** JavaScript `s.padStart(width, fill)` with a one-character fill. */
  function PadStart(s: string, width: nat, fill: char): (r: string)
    ensures |r| == if |s| >= width then |s| else width
    ensures r[|r| - |s|..] == s
    ensures forall k :: 0 <= k < |r| - |s| ==> r[k] == fill
  {
    if |s| >= width then s else seq(width - |s|, _ => fill) + s
  }

  /** JavaScript `s.padEnd(width, fill)` with a one-character fill. */
  function PadEnd(s: string, width: nat, fill: char): (r: string)
    ensures |r| == if |s| >= width then |s| else width
    ensures r[..|s|] == s
    ensures forall k :: |s| <= k < |r| ==> r[k] == fill
  {
    if |s| >= width then s else s + seq(width - |s|, _ => fill)
  }

  lemma {:induction false} LeadingZerosAddNothing(z: string, s: string)
    requires forall k :: 0 <= k < |z| ==> z[k] == '0'
    requires IsDigits(s)
    ensures IsDigits(z + s)
    ensures DigitsValue(z + s) == DigitsValue(s)
    decreases |z| + |s|
  {
    if s == [] {
      assert z + s == z;
      if z != [] {
        LeadingZerosAddNothing(z[..|z| - 1], []);
        assert z[..|z| - 1] + [] == z[..|z| - 1];
      }
    } else {
      assert (z + s)[..|z + s| - 1] == z + s[..|s| - 1];
      LeadingZerosAddNothing(z, s[..|s| - 1]);
    }
  }

  /** Zero-padding a decimal on the left keeps its value, so distinct numbers
      stay distinct after padding. */
  lemma PaddedDecimalValue(n: nat, width: nat)
    ensures IsDigits(PadStart(NatToString(n), width, '0'))
    ensures DigitsValue(PadStart(NatToString(n), width, '0')) == n
  {
    var s := NatToString(n);
    var p := PadStart(s, width, '0');
    var z := p[..|p| - |s|];
    assert p == z + s;
    LeadingZerosAddNothing(z, s);
    NatToStringRoundTrip(n);
  }
}
