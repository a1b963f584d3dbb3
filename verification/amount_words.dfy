/** `PayslipCalculator.numberToWords` and `convertHundreds`: an amount in
    Indian-English words, grouped into crores (10^7), lakhs (10^5),
    thousands and the last three digits, followed by " Only". */
module AmountWords {
  import opened Text

  const Ones: seq<string> := ["", "One", "Two", "Three", "Four", "Five", "Six", "Seven", "Eight", "Nine"]
  const Teens: seq<string> := ["Ten", "Eleven", "Twelve", "Thirteen", "Fourteen", "Fifteen",
                               "Sixteen", "Seventeen", "Eighteen", "Nineteen"]
  const Tens: seq<string> := ["", "", "Twenty", "Thirty", "Forty", "Fifty", "Sixty", "Seventy", "Eighty", "Ninety"]

  const Crore := 10000000
  const Lakh := 100000

  /** JavaScript `table[i]` used in a string concatenation: an index outside
      the table reads `undefined`, which concatenates as "undefined". */
  function At(table: seq<string>, i: int): string {
    if 0 <= i < |table| then table[i] else "undefined"
  }

  /** The tens-and-ones step shared by both functions: each word is appended
      followed by one space. */
  function TensAndOnes(num: int): string {
    if num >= 20 then
      At(Tens, num / 10) + " " + (if num % 10 > 0 then At(Ones, num % 10) + " " else "")
    else if num >= 10 then At(Teens, num - 10) + " "
    else if num > 0 then At(Ones, num) + " "
    else ""
  }

  /** The hundreds step followed by the tens-and-ones step, before trimming. */
  function HundredsPieces(num: int): string {
    if num >= 100 then At(Ones, num / 100) + " Hundred " + TensAndOnes(num % 100)
    else TensAndOnes(num)
  }

  /** `convertHundreds(num)`. */
  function ConvertHundreds(num: int): (r: string)
    ensures r == "" || IsTrimmed(r)
    ensures num <= 0 ==> r == ""
  {
    Trim(HundredsPieces(num))
  }

  /** One grouping step of `numberToWords`: when at least one unit of `size`
      remains, append the count's words and the scale word, and keep the
      remainder. */
  function Step(num: int, size: int, scale: string): (string, int)
    requires size > 0
  {
    if num >= size then (ConvertHundreds(num / size) + " " + scale + " ", num % size) else ("", num)
  }

  /** Everything `numberToWords` appends for a non-zero amount, before the
      final trim. */
  function WordPieces(num: int): string {
    var (crores, afterCrores) := Step(num, Crore, "Crore");
    var (lakhs, afterLakhs) := Step(afterCrores, Lakh, "Lakh");
    var (thousands, rest) := Step(afterLakhs, 1000, "Thousand");
    crores + lakhs + thousands + HundredsPieces(rest)
  }

  /** `numberToWords(num)` for an integer amount. */
  function NumberToWords(num: int): (r: string)
    ensures r == "Zero" <==> num == 0
    ensures num != 0 ==> |r| >= 5 && r[|r| - 5..] == " Only"
  {
    if num == 0 then "Zero" else Trim(WordPieces(num)) + " Only"
  }

  // ---------------------------------------------------------------------------
  // Reference definition: the word list, read digit by digit

  /** The words for a count below one hundred, read off its two digits. */
  function BelowHundredWords(m: nat): seq<string>
    requires m < 100
  {
    var t, u := m / 10, m % 10;
    if t >= 2 then [Tens[t]] + (if u > 0 then [Ones[u]] else [])
    else if t == 1 then [Teens[u]]
    else if u > 0 then [Ones[u]]
    else []
  }

  /** The words for a count below one thousand: the hundreds digit with
      "Hundred", then the words for the last two digits. */
  function GroupWords(k: nat): seq<string>
    requires k < 1000
  {
    (if k / 100 > 0 then [Ones[k / 100], "Hundred"] else []) + BelowHundredWords(k % 100)
  }

  /** A group of the Indian system followed by its scale word, or nothing for
      an empty group. */
  function Scaled(k: nat, scale: string): seq<string>
    requires k < 1000
  {
    if k == 0 then [] else GroupWords(k) + [scale]
  }

  /** The words for an amount below 10^10: crores, lakhs, thousands, then the
      last three digits, each group present only when non-zero. */
  function IndianWords(n: nat): seq<string>
    requires n < 100 * Crore * 10
  {
    Scaled(n / Crore, "Crore") + Scaled(n / Lakh % 100, "Lakh")
    + Scaled(n / 1000 % 100, "Thousand") + GroupWords(n % 1000)
  }

  // ---------------------------------------------------------------------------
  // Proofs

  lemma OnesAreWords()
    ensures forall i :: 1 <= i < 10 ==> IsWord(Ones[i])
  {
  }

  lemma TeensAreWords()
    ensures forall i :: 0 <= i < 10 ==> IsWord(Teens[i])
  {
  }

  lemma TensAreWords()
    ensures forall i :: 2 <= i < 10 ==> IsWord(Tens[i])
  {
  }

  lemma GroupWordsAreWords(k: nat)
    requires k < 1000
    ensures AllWords(GroupWords(k))
    ensures k > 0 <==> |GroupWords(k)| > 0
  {
    OnesAreWords();
    TeensAreWords();
    TensAreWords();
    assert IsWord("Hundred");
  }

  lemma TensAndOnesAreSpacedWords(m: nat)
    requires m < 100
    ensures TensAndOnes(m) == Spaced(BelowHundredWords(m))
  {
    var t, u := m / 10, m % 10;
    if t >= 2 {
      if u > 0 {
        assert BelowHundredWords(m)[1..] == [Ones[u]];
        assert Spaced([Ones[u]]) == Ones[u] + " " + "";
      } else {
        assert Spaced([Tens[t]]) == Tens[t] + " " + "";
      }
    } else if t == 1 {
      assert m - 10 == u;
      assert Spaced([Teens[u]]) == Teens[u] + " " + "";
    } else if u > 0 {
      assert Spaced([Ones[u]]) == Ones[u] + " " + "";
    }
  }

  /** The pieces `convertHundreds` appends are the reference words, each
      followed by a space. */
  lemma HundredsPiecesAreSpacedWords(k: nat)
    requires k < 1000
    ensures HundredsPieces(k) == Spaced(GroupWords(k))
  {
    if k >= 100 {
      HundredsPiecesWithHundreds(k);
    } else {
      assert k % 100 == k && k / 100 == 0;
      assert GroupWords(k) == [] + BelowHundredWords(k);
      assert [] + BelowHundredWords(k) == BelowHundredWords(k);
      assert HundredsPieces(k) == TensAndOnes(k);
      TensAndOnesAreSpacedWords(k);
    }
  }

  lemma HundredsPiecesWithHundreds(k: nat)
    requires 100 <= k < 1000
    ensures HundredsPieces(k) == Spaced(GroupWords(k))
  {
    var w, tail := Ones[k / 100], BelowHundredWords(k % 100);
    calc {
      HundredsPieces(k);
      { assert At(Ones, k / 100) == w; }
      w + " Hundred " + TensAndOnes(k % 100);
      { TensAndOnesAreSpacedWords(k % 100); }
      w + " Hundred " + Spaced(tail);
      { HundredWithWord(w); }
      Spaced([w, "Hundred"]) + Spaced(tail);
      { SpacedAppend([w, "Hundred"], tail); }
      Spaced([w, "Hundred"] + tail);
      { assert GroupWords(k) == [w, "Hundred"] + tail; }
      Spaced(GroupWords(k));
    }
  }

  lemma HundredWithWord(w: string)
    ensures Spaced([w, "Hundred"]) == w + " Hundred "
  {
    assert [w, "Hundred"][1..] == ["Hundred"];
    assert Spaced(["Hundred"]) == "Hundred" + " " + "";
  }

  /** For 1 <= k <= 999, `convertHundreds(k)` is the reference words joined by
      single spaces; for 0 it is empty. */
  lemma ConvertHundredsIsJoinedWords(k: nat)
    requires k < 1000
    ensures ConvertHundreds(k) == Join(GroupWords(k))
  {
    HundredsPiecesAreSpacedWords(k);
    GroupWordsAreWords(k);
    TrimSpaced(GroupWords(k));
  }

  /** `convertHundreds(0)` is empty; for 1 <= k <= 999 the result is non-empty,
      has no space at either end and no doubled space. */
  lemma ConvertHundredsShape(k: int)
    requires 0 <= k < 1000
    ensures k == 0 ==> ConvertHundreds(k) == ""
    ensures k > 0 ==> IsTrimmed(ConvertHundreds(k)) && SingleSpaced(ConvertHundreds(k))
  {
    ConvertHundredsIsJoinedWords(k);
    GroupWordsAreWords(k);
    if k > 0 {
      JoinShape(GroupWords(k));
    }
  }

  /** A non-empty group appended with its scale word, as `numberToWords`
      writes it. */
  lemma ScaledPiece(k: nat, scale: string)
    requires 0 < k < 1000
    ensures ConvertHundreds(k) + " " + scale + " " == Spaced(Scaled(k, scale))
  {
    ConvertHundredsIsJoinedWords(k);
    GroupWordsAreWords(k);
    JoinThenWordSpaced(GroupWords(k), scale);
  }

  /** A grouping step appends the scaled group of the reference words. */
  lemma StepIsScaled(num: int, size: int, scale: string, count: nat)
    requires size > 0 && count < 1000 && (num >= size <==> count > 0)
    requires num >= size ==> num / size == count
    ensures Step(num, size, scale).0 == Spaced(Scaled(count, scale))
  {
    if count > 0 {
      ScaledPiece(count, scale);
    }
  }

  lemma ScaledAreWords(k: nat, scale: string)
    requires k < 1000 && IsWord(scale)
    ensures AllWords(Scaled(k, scale))
    ensures k > 0 <==> |Scaled(k, scale)| > 0
  {
    GroupWordsAreWords(k);
    if k > 0 {
      AllWordsConcat(GroupWords(k), [scale]);
    }
  }

  /** A non-zero amount has a non-zero group. */
  lemma SomeGroupNonZero(n: nat)
    requires 0 < n < 100 * Crore * 10
    ensures n / Crore > 0 || n / Lakh % 100 > 0 || n / 1000 % 100 > 0 || n % 1000 > 0
  {
    if n < Crore {
      assert n / Lakh < 100;
      if n < Lakh {
        assert n / 1000 < 100;
      }
    }
  }

  lemma IndianWordsAreWords(n: nat)
    requires 0 < n < 100 * Crore * 10
    ensures AllWords(IndianWords(n)) && |IndianWords(n)| > 0
  {
    SomeGroupNonZero(n);
    GroupsAreWords(n / Crore, n / Lakh % 100, n / 1000 % 100, n % 1000);
  }

  /** The four groups of an amount, at least one of them non-zero, give a
      non-empty list of words. */
  lemma GroupsAreWords(g1: nat, g2: nat, g3: nat, g4: nat)
    requires g1 < 1000 && g2 < 1000 && g3 < 1000 && g4 < 1000
    requires g1 > 0 || g2 > 0 || g3 > 0 || g4 > 0
    ensures var ws := Scaled(g1, "Crore") + Scaled(g2, "Lakh") + Scaled(g3, "Thousand") + GroupWords(g4);
      AllWords(ws) && |ws| > 0
  {
    var a, b, c, d := Scaled(g1, "Crore"), Scaled(g2, "Lakh"), Scaled(g3, "Thousand"), GroupWords(g4);
    PrintableWord("Crore");
    PrintableWord("Lakh");
    PrintableWord("Thousand");
    ScaledAreWords(g1, "Crore");
    ScaledAreWords(g2, "Lakh");
    ScaledAreWords(g3, "Thousand");
    GroupWordsAreWords(g4);
    AllWordsConcat4(a, b, c, d);
  }

  lemma AllWordsConcat4(a: seq<string>, b: seq<string>, c: seq<string>, d: seq<string>)
    requires AllWords(a) && AllWords(b) && AllWords(c) && AllWords(d)
    ensures AllWords(a + b + c + d) && |a + b + c + d| == |a| + |b| + |c| + |d|
  {
    AllWordsConcat(a, b);
    AllWordsConcat(a + b, c);
    AllWordsConcat(a + b + c, d);
  }

  /** Taking the remainder by a crore first does not change the lakh group
      or what lies below it. */
  lemma CroreThenLakh(n: int)
    requires n >= 0
    ensures (n % Crore) / Lakh == (n / Lakh) % 100
    ensures (n % Crore) % Lakh == n % Lakh
  {
  }

  /** Taking the remainder by a lakh first does not change the thousand
      group or what lies below it. */
  lemma LakhThenThousand(n: int)
    requires n >= 0
    ensures (n % Lakh) / 1000 == (n / 1000) % 100
    ensures (n % Lakh) % 1000 == n % 1000
  {
  }

  /** The remainders `numberToWords` carries from group to group are the
      digit groups of the reference definition. */
  lemma GroupArithmetic(n: int)
    requires 0 < n < 100 * Crore * 10
    ensures (n >= Crore <==> n / Crore > 0) && n / Crore < 1000
    ensures var r := Step(n, Crore, "Crore").1;
      && r == n % Crore
      && (r >= Lakh <==> n / Lakh % 100 > 0) && (r >= Lakh ==> r / Lakh == n / Lakh % 100)
    ensures var r := Step(Step(n, Crore, "Crore").1, Lakh, "Lakh").1;
      && r == n % Lakh
      && (r >= 1000 <==> n / 1000 % 100 > 0) && (r >= 1000 ==> r / 1000 == n / 1000 % 100)
    ensures Step(Step(Step(n, Crore, "Crore").1, Lakh, "Lakh").1, 1000, "Thousand").1 == n % 1000
  {
    CroreThenLakh(n);
    LakhThenThousand(n);
  }

  /** What `numberToWords` appends is the reference words, each followed by a
      space. */
  lemma WordPiecesAreSpacedWords(n: int)
    requires 0 < n < 100 * Crore * 10
    ensures WordPieces(n) == Spaced(IndianWords(n))
  {
    var c, l, t, u := n / Crore, n / Lakh % 100, n / 1000 % 100, n % 1000;
    var (crores, afterCrores) := Step(n, Crore, "Crore");
    var (lakhs, afterLakhs) := Step(afterCrores, Lakh, "Lakh");
    var (thousands, rest) := Step(afterLakhs, 1000, "Thousand");
    GroupArithmetic(n);
    StepIsScaled(n, Crore, "Crore", c);
    StepIsScaled(afterCrores, Lakh, "Lakh", l);
    StepIsScaled(afterLakhs, 1000, "Thousand", t);
    HundredsPiecesAreSpacedWords(u);
    var a, b, d := Scaled(c, "Crore"), Scaled(l, "Lakh"), Scaled(t, "Thousand");
    SpacedAppend(a, b);
    SpacedAppend(a + b, d);
    SpacedAppend(a + b + d, GroupWords(u));
  }

  /** For 0 < n < 10^10, `numberToWords(n)` is the crore, lakh, thousand and
      last-three-digit groups (each only when non-zero, in this order, each
      group followed by its scale word) joined by single spaces, then " Only". */
  lemma NumberToWordsIsIndianWords(n: int)
    requires 0 < n < 100 * Crore * 10
    ensures NumberToWords(n) == Join(IndianWords(n)) + " Only"
  {
    WordPiecesAreSpacedWords(n);
    IndianWordsAreWords(n);
    TrimSpaced(IndianWords(n));
  }

  lemma OnlySuffixShape(j: string)
    requires IsTrimmed(j) && SingleSpaced(j)
    ensures var r := j + " Only";
      |r| > 5 && !IsWhitespace(r[0]) && SingleSpaced(r) && r[|r| - 5..] == " Only"
  {
    var r := j + " Only";
    assert SingleSpaced(" Only");
    SingleSpacedConcat(j, " Only");
    assert r[0] == j[0];
    assert r[|r| - 5..] == " Only";
  }

  /** For 0 < n < 10^10 the words start with a letter, never put two spaces
      side by side, and end with " Only". */
  lemma NumberToWordsShape(n: int)
    requires 0 < n < 100 * Crore * 10
    ensures var r := NumberToWords(n);
      && |r| > 5 && !IsWhitespace(r[0]) && SingleSpaced(r) && r[|r| - 5..] == " Only"
  {
    NumberToWordsIsIndianWords(n);
    IndianWordsAreWords(n);
    JoinShape(IndianWords(n));
    OnlySuffixShape(Join(IndianWords(n)));
  }

  /** Zero is the one amount spelled without the " Only" suffix; a negative
      amount matches none of the grouping branches and leaves just " Only". */
  lemma ZeroAndNegativeAmounts(n: int)
    ensures n == 0 ==> NumberToWords(n) == "Zero"
    ensures n != 0 ==> var r := NumberToWords(n); |r| >= 5 && r[|r| - 5..] == " Only"
    ensures n < 0 ==> NumberToWords(n) == " Only"
  {
    if n < 0 {
      assert WordPieces(n) == "";
      assert Trim("") == "";
    }
  }

  /** Below one thousand only the last group has words. */
  lemma SmallAmountWords(n: nat)
    requires n < 1000
    ensures IndianWords(n) == GroupWords(n)
  {
    assert n / Crore == 0 && n / Lakh % 100 == 0 && n / 1000 % 100 == 0 && n % 1000 == n;
    assert Scaled(0, "Crore") + Scaled(0, "Lakh") + Scaled(0, "Thousand") == [];
  }

  lemma OneHundredList(k: nat)
    requires k == 100
    ensures GroupWords(k) == ["One", "Hundred"]
  {
    assert k / 100 == 1 && k % 100 == 0;
    assert BelowHundredWords(0) == [];
    assert Ones[1] == "One";
  }

  lemma OneHundredWords(n: int)
    requires n == 100
    ensures Join(IndianWords(n)) == "One Hundred"
  {
    calc {
      Join(IndianWords(n));
      { SmallAmountWords(n); OneHundredList(n); }
      Join(["One", "Hundred"]);
      { JoinCons("One", ["Hundred"]); }
      "One" + " " + Join(["Hundred"]);
      "One Hundred";
    }
  }

  lemma OneHundredOnly(j: string)
    requires j == "One Hundred"
    ensures j + " Only" == "One Hundred Only"
  {
  }

  lemma OneHundred()
    ensures NumberToWords(100) == "One Hundred Only"
  {
    NumberToWordsIsIndianWords(100);
    OneHundredWords(100);
    OneHundredOnly(Join(IndianWords(100)));
  }

  lemma TwelveLakhList(n: int)
    requires n == 1234567
    ensures IndianWords(n)
         == ["Twelve", "Lakh"] + ["Thirty", "Four", "Thousand"] + ["Five", "Hundred", "Sixty", "Seven"]
  {
    assert n / Crore == 0 && n / Lakh % 100 == 12 && n / 1000 % 100 == 34 && n % 1000 == 567;
    assert Scaled(12, "Lakh") == ["Twelve", "Lakh"];
    assert Scaled(34, "Thousand") == ["Thirty", "Four", "Thousand"];
    assert GroupWords(567) == ["Five", "Hundred", "Sixty", "Seven"];
  }

  lemma TwelveLakhGroup()
    ensures Join(["Twelve", "Lakh"]) == "Twelve Lakh"
  {
    JoinCons("Twelve", ["Lakh"]);
  }

  lemma ThirtyFourThousandGroup()
    ensures Join(["Thirty", "Four", "Thousand"]) == "Thirty Four Thousand"
  {
    JoinCons("Four", ["Thousand"]);
    JoinCons("Thirty", ["Four", "Thousand"]);
  }

  lemma FiveHundredSixtySevenGroup()
    ensures Join(["Five", "Hundred", "Sixty", "Seven"]) == "Five Hundred Sixty Seven"
  {
    JoinCons("Sixty", ["Seven"]);
    JoinCons("Hundred", ["Sixty", "Seven"]);
    JoinCons("Five", ["Hundred", "Sixty", "Seven"]);
  }

  lemma TwelveLakhJoin(n: int)
    requires n == 1234567
    ensures Join(IndianWords(n))
         == "Twelve Lakh" + " " + "Thirty Four Thousand" + " " + "Five Hundred Sixty Seven"
  {
    var a, b, c := ["Twelve", "Lakh"], ["Thirty", "Four", "Thousand"], ["Five", "Hundred", "Sixty", "Seven"];
    TwelveLakhList(n);
    JoinAppend(a + b, c);
    JoinAppend(a, b);
    TwelveLakhGroup();
    ThirtyFourThousandGroup();
    FiveHundredSixtySevenGroup();
  }

  lemma TwelveLakhText(j: string)
    requires j == "Twelve Lakh" + " " + "Thirty Four Thousand" + " " + "Five Hundred Sixty Seven"
    ensures j + " Only" == "Twelve Lakh " + "Thirty Four Thousand " + "Five Hundred Sixty Seven Only"
  {
    assert j + " Only"
        == ("Twelve Lakh" + " ") + ("Thirty Four Thousand" + " ") + ("Five Hundred Sixty Seven" + " Only");
  }

  /** The lakh and thousand boundaries of 12,34,567. */
  lemma TwelveLakhExample()
    ensures NumberToWords(1234567)
         == "Twelve Lakh " + "Thirty Four Thousand " + "Five Hundred Sixty Seven Only"
  {
    NumberToWordsIsIndianWords(1234567);
    TwelveLakhJoin(1234567);
    TwelveLakhText(Join(IndianWords(1234567)));
  }

  lemma ThousandHundreds(k: int)
    requires k == 1000
    ensures ConvertHundreds(k) == "undefined Hundred"
  {
    assert k / 100 == 10 && k % 100 == 0;
    var text := "undefined Hundred";
    assert HundredsPieces(k) == text + " ";
    assert IsTrimmed(text) by {
      assert text[0] == 'u' && text[|text| - 1] == 'd';
    }
    TrimOneSpace(HundredsPieces(k), text);
  }

  lemma OverflowPieces(n: int)
    requires n == 100 * Crore * 10
    ensures WordPieces(n) == "undefined Hundred" + " " + "Crore" + " "
  {
    assert Step(n, Crore, "Crore") == ("undefined Hundred" + " " + "Crore" + " ", 0) by {
      assert n / Crore == 1000 && n % Crore == 0;
      ThousandHundreds(n / Crore);
    }
    assert Step(0, Lakh, "Lakh") == ("", 0);
    assert Step(0, 1000, "Thousand") == ("", 0);
    assert HundredsPieces(0) == "";
    assert WordPieces(n) == Step(n, Crore, "Crore").0 + Step(0, Lakh, "Lakh").0
                           + Step(0, 1000, "Thousand").0 + HundredsPieces(0);
  }

  lemma OverflowText(n: int)
    requires n == 100 * Crore * 10
    ensures Trim(WordPieces(n)) == "undefined Hundred Crore"
  {
    var text := "undefined Hundred Crore";
    OverflowPieces(n);
    OverflowSpelling(text);
    assert IsTrimmed(text) by {
      assert text[0] == 'u' && text[|text| - 1] == 'e';
    }
    TrimOneSpace(WordPieces(n), text);
  }

  lemma OverflowSpelling(text: string)
    requires text == "undefined Hundred Crore"
    ensures "undefined Hundred" + " " + "Crore" + " " == text + " "
  {
  }

  /** At 10^10 the crore count reaches 1000 and its hundreds digit indexes
      past the ones table, so the words read "undefined". */
  lemma CroreCountOverflow()
    ensures NumberToWords(100 * Crore * 10) == "undefined Hundred Crore" + " Only"
  {
    OverflowText(100 * Crore * 10);
  }
}
