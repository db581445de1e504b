/** What spelling numbers promises. */
module SpelledNumbers {
  import opened Base
  import opened Decimal
  import opened Text
  import Normalize
  import opened Speller
  import opened ReadBack
  import opened Letters

  lemma AsciiDigitsAreDigits(u: CharTable, digits: string)
    requires Sane(u) && Normalize.AllDigits(u, digits)
    ensures |AsciiDigits(u, digits)| == |digits| && AllDigits(AsciiDigits(u, digits))
    ensures AllDigits(digits) ==> AsciiDigits(u, digits) == digits
    ensures digits != "" && digits[0] == '0' ==> AsciiDigits(u, digits)[0] == '0'
  {
    forall i | 0 <= i < |digits|
      ensures IsDigit(AsciiDigits(u, digits)[i])
      ensures IsDigit(digits[i]) ==> AsciiDigits(u, digits)[i] == digits[i]
    {
      assert digits[i] in digits;
    }
  }

  /** The digits need no int(), or int() takes them. */
  predicate CanSpell(digits: string) {
    digits != "" && (|digits| <= MAX_INT_DIGITS || digits[0] == '0')
  }

  /** A leading zero in another script is not seen as one, and lost with the numeral of a number that is
      read as a figure. */
  predicate LosesZeros(u: CharTable, digits: string) {
    var read := AsciiDigits(u, digits);
    |digits| > 1 && read[0] == '0' && digits[0] != '0' && ToInt(read) <= MAX_CARDINAL
  }

  ghost predicate ReadsBack(u: CharTable, digits: string) {
    SpellNumber(u, digits).Some? && ReadNumber(SpellNumber(u, digits).value) == AsciiDigits(u, digits)
  }

  /** A string of digits in whatever scripts is spelled exactly when int() is not asked for too long a one, and
      its spelling reads back exactly unless it loses leading zeros; ASCII digits always come back. */
  lemma SpellingReadsBack(u: CharTable, digits: string)
    requires Sane(u) && Normalize.AllDigits(u, digits)
    ensures SpellNumber(u, digits).Some? <==> CanSpell(digits)
    ensures ReadsBack(u, digits) <==> CanSpell(digits) && !LosesZeros(u, digits)
    ensures CanSpell(digits) && LosesZeros(u, digits) ==>
      ReadNumber(SpellNumber(u, digits).value) == Numeral(ToInt(AsciiDigits(u, digits)))
    ensures CanSpell(digits) && AllDigits(digits) ==> ReadNumber(SpellNumber(u, digits).value) == digits
  {
    hide Lex, Eval, Cardinal, DigitByDigit, ToInt, Dictated, Numeral;
    AsciiDigitsAreDigits(u, digits);
    if CanSpell(digits) {
      SpelledReadsBack(u, digits);
    }
  }

  lemma SpelledReadsBack(u: CharTable, digits: string)
    requires Sane(u) && Normalize.AllDigits(u, digits) && CanSpell(digits)
    ensures SpellNumber(u, digits).Some? && ReadNumber(SpellNumber(u, digits).value) ==
            if LosesZeros(u, digits) then Numeral(ToInt(AsciiDigits(u, digits))) else AsciiDigits(u, digits)
    ensures LosesZeros(u, digits) ==> Numeral(ToInt(AsciiDigits(u, digits))) != AsciiDigits(u, digits)
  {
    hide Lex, Eval, Cardinal, DigitByDigit, ToInt, Dictated, Numeral;
    AsciiDigitsAreDigits(u, digits);
    var read := AsciiDigits(u, digits);
    if (|digits| > 1 && digits[0] == '0') || ToInt(read) > MAX_CARDINAL {
      if |read| == 1 {
        ShortMeansSmall(read);
      } else {
        DictatedReadsBack(read);
      }
    } else {
      FigureReadsBack(ToInt(read));
      if LosesZeros(u, digits) {
        NumeralHasNoZeros(ToInt(read));
      } else {
        WriteInt(read);
      }
    }
  }

  /** For instance an Arabic-Indic zero in front of a five, which is spelled as the five alone. */
  lemma ForeignZeroIsLost(u: CharTable)
    requires Sane(u) && u.digit('\U{0660}') && u.value('\U{0660}') == 0
    ensures var spelled := SpellNumber(u, ['\U{0660}', '5']);
      LosesZeros(u, ['\U{0660}', '5']) && spelled.Some? && spelled.value == "fem"
  {
    var digits := ['\U{0660}', '5'];
    assert AsciiDigits(u, digits) == "05";
    assert "05"[..1] == "0" && "0"[..0] == "";
    assert ToInt("05") == 5;
  }

  /** One digit too many. */
  const OVERLONG: string := seq(MAX_INT_DIGITS + 1, _ => '1')

  /** A text of 4301 ones is counted as one token, but the aligner gets none: int() raises. */
  lemma OverlongRunFails(u: CharTable)
    requires Sane(u)
    ensures !LosesZeros(u, OVERLONG) && SpellNumber(u, OVERLONG) == None
    ensures Normalize.AlignableTokens(u, OVERLONG) == 1
    ensures Normalize.NormalizedTokens(u, Some(d => SpellNumber(u, d)), OVERLONG) == None
  {
    hide ToInt, DigitByDigit, Cardinal, Normalize.Expand, Normalize.Tokens;
    var speller := (d: string) => SpellNumber(u, d);
    assert Normalize.AllDigits(u, OVERLONG);
    AsciiDigitsAreDigits(u, OVERLONG);
    assert Normalize.MaximalRun(u, OVERLONG, 0, |OVERLONG|) && OVERLONG[0..|OVERLONG|] == OVERLONG;
    Normalize.ExpandsIff(u, speller, OVERLONG);
    Normalize.KeepAllWhen(c => u.wordChar(c) || u.space(c), OVERLONG);
    Normalize.KeepSolid(u, OVERLONG);
  }

  lemma FigureReadsBack(n: nat)
    requires n <= MAX_CARDINAL
    ensures ReadNumber(Cardinal(n)) == Numeral(n)
  {
    hide Lex, Eval, Cardinal, Dictated;
    LexCardinal(n);
    FiguresAreNotDictated(n);
    EvalCardinal(n);
  }

  lemma NumeralHasNoZeros(n: nat)
    ensures |Numeral(n)| > 1 ==> Numeral(n)[0] != '0'
  {
    if n > 0 {
      NoLeadingZero(n);
    }
  }

  /** No two digit strings are spelled alike but for the scripts their digits are written in. */
  lemma SpellingIsInjective(u: CharTable, a: string, b: string)
    requires Sane(u) && Normalize.AllDigits(u, a) && Normalize.AllDigits(u, b)
    requires SpellNumber(u, a).Some? && SpellNumber(u, a) == SpellNumber(u, b)
    ensures !LosesZeros(u, a) && !LosesZeros(u, b) ==> AsciiDigits(u, a) == AsciiDigits(u, b)
    ensures AllDigits(a) && AllDigits(b) ==> a == b
  {
    SpellingReadsBack(u, a);
    SpellingReadsBack(u, b);
  }

  /** Every spelling is a non-empty run of Swedish letters. */
  lemma SpellingIsOneWord(u: CharTable, digits: string)
    requires Sane(u) && Normalize.AllDigits(u, digits) && SpellNumber(u, digits).Some?
    ensures OneWord(SpellNumber(u, digits).value)
  {
    hide OneWord, DigitByDigit, Cardinal, ToInt;
    AsciiDigitsAreDigits(u, digits);
    var read := AsciiDigits(u, digits);
    if (|digits| > 1 && digits[0] == '0') || ToInt(read) > MAX_CARDINAL {
      OneWordDigits(read);
    } else {
      OneWordCardinal(ToInt(read));
    }
  }

  /** With the Swedish letters among the word characters, spelling the numbers of a text out never changes how
      many tokens it is aligned by: there are tokens exactly unless some maximal digit run is too long for
      int() and does not begin with the ASCII zero, and then as many as are counted. */
  lemma SwedishExpansionKeepsCount(u: CharTable, text: string)
    requires Sane(u) && forall c :: c in LETTERS ==> u.wordChar(c)
    ensures var tokens := Normalize.NormalizedTokens(u, Some(d => SpellNumber(u, d)), text);
      && (tokens.Some? <==> forall i, j :: Normalize.MaximalRun(u, text, i, j) ==> j - i <= MAX_INT_DIGITS || text[i] == '0')
      && (tokens.Some? ==> |tokens.value| == Normalize.AlignableTokens(u, text))
  {
    hide SpellNumber, Normalize.Expand, Normalize.Tokens, AllDigits, OneWord;
    var speller := (d: string) => SpellNumber(u, d);
    forall d: string | d != "" && Normalize.AllDigits(u, d) && speller(d).Some?
      ensures speller(d).value != "" && forall c :: c in speller(d).value ==> u.wordChar(c)
    {
      SpellingIsOneWord(u, d);
      WordOfLetters(u, speller(d).value);
    }
    Normalize.ExpansionKeepsCount(u, Some(speller), text);
    forall i, j | Normalize.MaximalRun(u, text, i, j)
      ensures speller(text[i..j]).Some? <==> j - i <= MAX_INT_DIGITS || text[i] == '0'
    {
      assert text[i..j][0] == text[i];
      SpellingReadsBack(u, text[i..j]);
    }
  }

  lemma WordOfLetters(u: CharTable, word: string)
    requires OneWord(word) && forall c :: c in LETTERS ==> u.wordChar(c)
    ensures word != "" && forall c :: c in word ==> u.wordChar(c)
  {
  }
}
