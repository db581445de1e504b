/** src/vemsa/pipeline/normalize.py, spell_number_sv: how a figure is written, told by smaller figures: the words up
    to nineteen, tens and ones, hundreds without "ett", thousands with or without, years in hundreds, "en" before
    millions. What is left of it after the largest part is written behind, if there is anything left. No figure has
    three t in a row, since a number that ends in "ett" gives one up before "tusen". */
module Spelling {
  import opened Base
  import opened Decimal
  import opened Speller
  import opened ReadBack
  import opened Text

  /** A remainder is written only when there is one. */
  function Rest(n: nat): string
    requires n <= MAX_CARDINAL
  {
    if n == 0 then "" else Cardinal(n)
  }

  lemma FirstFigures(n: nat)
    requires n < 20
    ensures Cardinal(n) == [
      "noll", "ett", "två", "tre", "fyra", "fem", "sex", "sju", "åtta", "nio",
      "tio", "elva", "tolv", "tretton", "fjorton", "femton", "sexton", "sjutton", "arton", "nitton"][n]
  {
    CardinalBelowThousand(n);
  }

  lemma CardinalBelowThousand(n: nat)
    requires n < 1000
    ensures n > 0 ==> Cardinal(n) == BelowThousand(n)
    ensures 0 < n < 100 ==> BelowThousand(n) == BelowHundred(n)
  {
    hide BelowHundred, BelowThousand;
    if n > 0 {
      assert n / 1_000_000 == 0 && n % 1_000_000 == n && n / 1000 == 0 && n % 1000 == n;
    }
    if 0 < n < 100 {
      JustARest(n);
    }
  }

  lemma JustARest(n: nat)
    requires 0 < n < 100
    ensures BelowThousand(n) == BelowHundred(n)
  {
    hide BelowHundred;
    assert n / 100 == 0 && n % 100 == n;
    assert "" + BelowHundred(n) == BelowHundred(n);
  }

  lemma Tens(n: nat)
    requires 20 <= n < 100
    ensures Cardinal(n) == ["tjugo", "trettio", "fyrtio", "femtio", "sextio", "sjuttio", "åttio", "nittio"][n / 10 - 2] + Rest(n % 10)
  {
    hide Cardinal, BelowThousand;
    CardinalBelowThousand(n);
    CardinalBelowThousand(n % 10);
    TensWord(n / 10);
    if n % 10 > 0 {
      Units(n % 10);
    }
  }

  lemma TensWord(tens: nat)
    requires 2 <= tens < 10
    ensures TENS[tens] == ["tjugo", "trettio", "fyrtio", "femtio", "sextio", "sjuttio", "åttio", "nittio"][tens - 2]
  {
  }

  /** One hundred is just "hundra". */
  lemma Hundreds(n: nat)
    requires 100 <= n < 1000
    ensures Cardinal(n) == (if n / 100 == 1 then "" else Cardinal(n / 100)) + "hundra" + Rest(n % 100)
  {
    hide BelowHundred;
    CardinalBelowThousand(n);
    CardinalBelowThousand(n % 100);
    CardinalBelowThousand(n / 100);
    Units(n / 100);
  }

  lemma Units(n: nat)
    requires 0 < n < 20
    ensures BelowHundred(n) == ONES[n]
  {
  }

  /** One thousand is just "tusen"; 1100 to 1999 are read in hundreds; in "tjugoettusen" the t is written twice. */
  lemma Thousands(n: nat)
    requires 1000 <= n < 1_000_000
    ensures n < 1100 ==> Cardinal(n) == "tusen" + Rest(n % 1000)
    ensures 1100 <= n < 2000 ==> Cardinal(n) == Cardinal(n / 100) + "hundra" + Rest(n % 100)
    ensures 2000 <= n ==>
      Cardinal(n) == Cardinal(n / 1000) + (if n / 1000 % 10 == 1 && n / 1000 % 100 != 11 then "usen" else "tusen") + Rest(n % 1000)
  {
    hide BelowThousand, BelowHundred, Collapse, Plain;
    assert Cardinal(n) == BelowMillion(n);
    CardinalBelowThousand(n % 1000);
    CardinalBelowThousand(n % 100);
    CardinalBelowThousand(n / 1000);
    if n < 1100 {
      TusenStays();
      assert "" + "tusen" == "tusen";
    } else if n < 2000 {
      CardinalBelowThousand(n / 100);
    } else {
      PlainBelowThousand(n / 1000);
      ThousandsWord(BelowThousand(n / 1000), EndsInOne(n / 1000));
    }
  }

  /** "en" before "miljon", never "ett". */
  lemma Millions(n: nat)
    requires 1_000_000 <= n <= MAX_CARDINAL
    ensures n < 2_000_000 ==> Cardinal(n) == "enmiljon" + Rest(n % 1_000_000)
    ensures 2_000_000 <= n ==> var front := Cardinal(n / 1_000_000);
      if n / 1_000_000 % 10 == 1 && n / 1_000_000 % 100 != 11
      then |front| >= 3 && front[|front| - 3..] == "ett" && Cardinal(n) == front[..|front| - 3] + "enmiljoner" + Rest(n % 1_000_000)
      else Cardinal(n) == front + "miljoner" + Rest(n % 1_000_000)
  {
    hide Cardinal, BelowThousand, BelowMillion, Plain, EndsWith;
    var millions, rest := n / 1_000_000, n % 1_000_000;
    MillionsAndRest(n, millions, rest);
    CardinalBelowMillion(rest);
    CardinalBelowThousand(millions);
    if millions > 1 {
      PlainBelowThousand(millions);
      EttOrNot(BelowThousand(millions), EndsInOne(millions));
    }
  }

  lemma CardinalBelowMillion(n: nat)
    requires n < 1_000_000
    ensures n > 0 ==> Cardinal(n) == BelowMillion(n)
  {
    hide BelowMillion;
    assert n / 1_000_000 == 0 && n % 1_000_000 == n;
  }

  lemma MillionsAndRest(n: nat, millions: nat, rest: nat)
    requires n <= MAX_CARDINAL && millions == n / 1_000_000 > 0 && rest == n % 1_000_000
    ensures var tail := if rest != 0 then BelowMillion(rest) else "";
      if millions == 1 then Cardinal(n) == "enmiljon" + tail
      else
        var front := BelowThousand(millions);
        if EndsWith(front, "ett") then Cardinal(n) == front[..|front| - 3] + "enmiljoner" + tail
        else Cardinal(n) == front + "miljoner" + tail
  {
    hide BelowThousand, BelowMillion;
    var front := BelowThousand(millions);
    if EndsWith(front, "ett") {
      assert front[..|front| - 3] + "en" + "miljoner" == front[..|front| - 3] + "enmiljoner";
    }
  }

  lemma EttOrNot(s: string, ett: bool)
    requires Plain(s, ett)
    ensures EndsWith(s, "ett") <==> ett
    ensures ett ==> |s| >= 3 && s[|s| - 3..] == "ett"
  {
    assert EndsWith(s, "ett") ==> s[|s| - 1] == s[|s| - 3..][2];
  }

  /** A dictated run is the figures of its digits, one after the other. */
  lemma {:induction false} DigitsOneByOne(digits: string)
    ensures DigitByDigit(digits) == Flatten(Map(d => Cardinal(DigitValue(d)), digits))
  {
    hide Cardinal;
    if digits != "" {
      DigitsOneByOne(digits[1..]);
      FirstFigures(DigitValue(digits[0]));
      assert Map(d => Cardinal(DigitValue(d)), digits)[1..] == Map(d => Cardinal(DigitValue(d)), digits[1..]);
    }
  }

  /** No figure has three t in a row. */
  lemma NoThreeTs(n: nat)
    requires n <= MAX_CARDINAL
    ensures forall at: nat :: !Occurs(Cardinal(n), "ttt", at)
  {
    hide Cardinal, Plain, NoTriple;
    if n == 0 {
      FirstFigures(0);
      NollIsPlain();
    } else {
      PlainFigure(n);
    }
    PlainHasNoTriple(Cardinal(n), n % 10 == 1 && n % 100 != 11);
  }

  lemma NollIsPlain()
    ensures Plain("noll", false)
  {
  }

  lemma PlainHasNoTriple(s: string, ett: bool)
    requires Plain(s, ett)
    ensures forall at: nat :: !Occurs(s, "ttt", at)
  {
    forall at: nat ensures !Occurs(s, "ttt", at) {
      if at + 3 <= |s| {
        var found := s[at..at + 3];
        assert s[at] == found[0] && s[at + 1] == found[1] && s[at + 2] == found[2];
      }
    }
  }

  /** A figure ends in t only with "ett". */
  lemma PlainFigure(n: nat)
    requires 0 < n <= MAX_CARDINAL
    ensures Plain(Cardinal(n), n % 10 == 1 && n % 100 != 11)
    decreases n
  {
    hide Cardinal, Plain, Remainder;
    if n < 1000 {
      CardinalBelowThousand(n);
      PlainBelowThousand(n);
    } else {
      var rest := Remainder(n);
      var head := HeadOf(n);
      SameLastDigits(n);
      if rest > 0 {
        PlainFigure(rest);
        PlainAppend(head, Cardinal(rest), rest % 10 == 1 && rest % 100 != 11);
      } else {
        assert head + "" == head;
      }
    }
  }

  /** What is left to write after the hundreds, the thousands or the millions. */
  function Remainder(n: nat): (rest: nat)
    requires n >= 1000
    ensures rest < n && rest < 1_000_000
  {
    if n < 1_000_000 then (if 1100 <= n < 2000 then n % 100 else n % 1000) else n % 1_000_000
  }

  lemma SameLastDigits(n: nat)
    requires n >= 1000
    ensures Remainder(n) % 10 == n % 10 && Remainder(n) % 100 == n % 100
  {
    var rest := Remainder(n);
    var q := if n < 1_000_000 then (if 1100 <= n < 2000 then n / 100 else n / 1000 * 10) else n / 1_000_000 * 10_000;
    assert n == 100 * q + rest;
    SameRemainders(n, q, rest);
  }

  lemma SameRemainders(n: nat, q: nat, rest: nat)
    requires n == 100 * q + rest
    ensures rest % 10 == n % 10 && rest % 100 == n % 100
  {
    var a, b := rest / 10, rest % 10;
    LastOfTen(10 * q + a, b);
    var c, d := rest / 100, rest % 100;
    LastOfHundred(q + c, d);
  }

  lemma LastOfTen(a: nat, b: nat)
    requires b < 10
    ensures (10 * a + b) % 10 == b
  {
  }

  lemma LastOfHundred(a: nat, b: nat)
    requires b < 100
    ensures (100 * a + b) % 100 == b
  {
  }

  lemma HeadOf(n: nat) returns (head: string)
    requires 1000 <= n <= MAX_CARDINAL
    ensures Plain(head, false) && Cardinal(n) == head + Rest(Remainder(n))
  {
    hide Cardinal, Plain;
    if n < 1_000_000 {
      Thousands(n);
      head := ThousandsHead(n);
    } else {
      Millions(n);
      head := MillionsHead(n / 1_000_000);
    }
  }

  lemma ThousandsHead(n: nat) returns (head: string)
    requires 1000 <= n < 1_000_000
    ensures Plain(head, false)
    ensures head == if n < 1100 then "tusen" else if n < 2000 then Cardinal(n / 100) + "hundra"
      else Cardinal(n / 1000) + if n / 1000 % 10 == 1 && n / 1000 % 100 != 11 then "usen" else "tusen"
  {
    hide Cardinal, Plain;
    FixedWords();
    if n < 1100 {
      head := "tusen";
    } else if n < 2000 {
      head := Cardinal(n / 100) + "hundra";
      CardinalBelowThousand(n / 100);
      Units(n / 100);
      PlainOnes(n / 100);
      EndPlain(Cardinal(n / 100), false, "hundra");
    } else {
      var ett := EndsInOne(n / 1000);
      head := Cardinal(n / 1000) + if ett then "usen" else "tusen";
      CardinalBelowThousand(n / 1000);
      PlainBelowThousand(n / 1000);
      EndPlain(Cardinal(n / 1000), ett, if ett then "usen" else "tusen");
    }
  }

  lemma MillionsHead(millions: nat) returns (head: string)
    requires 0 < millions < 1000
    ensures Plain(head, false)
    ensures var front := Cardinal(millions);
      if millions == 1 then head == "enmiljon"
      else if millions % 10 == 1 && millions % 100 != 11 then |front| >= 3 && head == front[..|front| - 3] + "enmiljoner"
      else head == front + "miljoner"
  {
    hide Cardinal, Plain;
    FixedWords();
    var front := Cardinal(millions);
    CardinalBelowThousand(millions);
    PlainBelowThousand(millions);
    if millions == 1 {
      head := "enmiljon";
    } else if EndsInOne(millions) {
      EttOrNot(front, true);
      head := front[..|front| - 3] + "enmiljoner";
      FrontPlain(front, "enmiljoner");
    } else {
      head := front + "miljoner";
      EndPlain(front, false, "miljoner");
    }
  }

  lemma FixedWords()
    ensures Plain("tusen", false) && Plain("hundra", false) && Plain("enmiljon", false)
  {
  }

  /** A word that ends in n, r or a, after anything it does not make a third t with. */
  lemma EndPlain(front: string, ett: bool, end: string)
    requires Plain(front, ett) && end in ["usen", "tusen", "miljoner", "hundra"] && (ett ==> end == "usen")
    ensures Plain(front + end, false)
  {
    NoTripleAppend(front, end);
  }

  lemma FrontPlain(front: string, end: string)
    requires Plain(front, true) && end == "enmiljoner" && |front| >= 3
    ensures Plain(front[..|front| - 3] + end, false)
  {
    var a := front[..|front| - 3];
    assert forall i :: 0 <= i < |a| ==> a[i] == front[i];
    NoTripleAppend(a, end);
  }
}
