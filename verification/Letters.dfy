/** Every number word src/vemsa/pipeline/normalize.py spells is a non-empty run of Swedish letters, and so is
    whatever is put together from them: tens and ones, hundreds, thousands with their dropped t,
    millions with their changed ending, and the digits of a run read one by one, joined without a
    blank. Nothing in a spelling is whitespace or punctuation, so that a spelled number is one token,
    as the digits were. */
module Letters {
  import opened Decimal
  import opened Speller
  import opened ReadBack

  const LETTERS := "abcdefghijklmnopqrstuvwxyzåäö"

  ghost predicate OneWord(s: string) {
    s != "" && forall i :: 0 <= i < |s| ==> s[i] in LETTERS
  }

  lemma OneWordAppend(a: string, b: string)
    requires OneWord(a) && (b == "" || OneWord(b))
    ensures OneWord(a + b) && OneWord(b + a)
  {
  }

  lemma OneWordParts(n: nat)
    requires n < 20
    ensures OneWord(ONES[n])
    ensures 2 <= n < 10 ==> OneWord(TENS[n])
  {
  }

  lemma OneWordFixed()
    ensures OneWord("hundra") && OneWord("tusen") && OneWord("usen") && OneWord("enmiljon") && OneWord("miljoner") && OneWord("en")
  {
  }

  lemma OneWordBelowHundred(n: nat)
    requires n < 100
    ensures OneWord(BelowHundred(n))
  {
    hide OneWord;
    if n < 20 {
      OneWordParts(n);
    } else {
      OneWordParts(n / 10);
      OneWordParts(n % 10);
      OneWordAppend(TENS[n / 10], if n % 10 != 0 then ONES[n % 10] else "");
    }
  }

  lemma OneWordBelowThousand(n: nat)
    requires 0 < n < 1000
    ensures OneWord(BelowThousand(n))
  {
    hide OneWord, BelowHundred;
    var hundreds, rest := n / 100, n % 100;
    OneWordFixed();
    OneWordBelowHundred(rest);
    var tail := if rest != 0 then BelowHundred(rest) else "";
    if hundreds == 0 {
      assert BelowThousand(n) == tail;
    } else {
      OneWordParts(hundreds);
      var front := (if hundreds == 1 then "" else ONES[hundreds]) + "hundra";
      OneWordAppend("hundra", if hundreds == 1 then "" else ONES[hundreds]);
      OneWordAppend(front, tail);
    }
  }

  lemma OneWordThousands(n: nat)
    requires 0 < n < 1000
    ensures OneWord(Collapse((if n == 1 then "" else BelowThousand(n)) + "tusen"))
  {
    hide OneWord, BelowThousand, Collapse, Plain;
    OneWordFixed();
    if n == 1 {
      TusenStays();
      assert "" + "tusen" == "tusen";
    } else {
      PlainBelowThousand(n);
      ThousandsWord(BelowThousand(n), EndsInOne(n));
      OneWordBelowThousand(n);
      OneWordAppend(BelowThousand(n), if EndsInOne(n) then "usen" else "tusen");
    }
  }

  lemma OneWordBelowMillion(n: nat)
    requires 0 < n < 1_000_000
    ensures OneWord(BelowMillion(n))
  {
    hide OneWord, BelowHundred, BelowThousand, Collapse;
    OneWordFixed();
    if 1100 <= n <= 1999 {
      OneWordBelowHundred(n / 100);
      OneWordBelowHundred(n % 100);
      OneWordAppend(BelowHundred(n / 100), "hundra");
      OneWordAppend(BelowHundred(n / 100) + "hundra", if n % 100 != 0 then BelowHundred(n % 100) else "");
    } else {
      var thousands, rest := n / 1000, n % 1000;
      if rest != 0 {
        OneWordBelowThousand(rest);
      }
      if thousands != 0 {
        OneWordThousands(thousands);
        OneWordAppend(Collapse((if thousands == 1 then "" else BelowThousand(thousands)) + "tusen"),
          if rest != 0 then BelowThousand(rest) else "");
      }
    }
  }

  lemma OneWordMillions(n: nat)
    requires 2 <= n < 1000
    ensures var prefix := BelowThousand(n);
      OneWord((if EndsWith(prefix, "ett") then prefix[..|prefix| - 3] + "en" else prefix) + "miljoner")
  {
    hide BelowThousand;
    var prefix := BelowThousand(n);
    OneWordFixed();
    OneWordBelowThousand(n);
    if EndsWith(prefix, "ett") {
      var front := prefix[..|prefix| - 3];
      assert front == "" || OneWord(front);
      hide OneWord;
      OneWordAppend("en", front);
      OneWordAppend(front + "en", "miljoner");
    } else {
      OneWordAppend(prefix, "miljoner");
    }
  }

  lemma OneWordCardinal(n: nat)
    requires n <= MAX_CARDINAL
    ensures OneWord(Cardinal(n))
  {
    hide OneWord, BelowThousand, BelowMillion;
    var millions, rest := n / 1_000_000, n % 1_000_000;
    var tail := if rest != 0 then BelowMillion(rest) else "";
    OneWordFixed();
    OneWordParts(0);
    if rest != 0 {
      OneWordBelowMillion(rest);
    }
    if millions == 1 {
      OneWordAppend("enmiljon", tail);
    } else if millions > 1 {
      OneWordMillions(millions);
      var prefix := BelowThousand(millions);
      OneWordAppend((if EndsWith(prefix, "ett") then prefix[..|prefix| - 3] + "en" else prefix) + "miljoner", tail);
    }
  }

  lemma {:induction false} OneWordDigits(digits: string)
    requires digits != "" && AllDigits(digits)
    ensures OneWord(DigitByDigit(digits))
  {
    OneWordParts(DigitValue(digits[0]));
    if |digits| > 1 {
      OneWordDigits(digits[1..]);
    }
    OneWordAppend(ONES[DigitValue(digits[0])], DigitByDigit(digits[1..]));
  }
}
