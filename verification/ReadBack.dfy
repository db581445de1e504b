/** Why a number spelled by src/vemsa/pipeline/normalize.py can be read back. A spelling is cut into number
    words, each the longest that fits, and the words are evaluated as they would be spoken: hundreds,
    thousands and millions scale the group before them, and a run read digit by digit is told apart
    from every cardinal. The places where the speller bends a word are where cutting is delicate: one
    t of "ttt" is dropped before "tusen", and "ett" becomes "en" before "miljon". */
module ReadBack {
  import opened Base
  import opened Decimal
  import opened Speller

  // ---- one number word at a time

  /** A continuation no short word can swallow part of. */
  predicate Safe(r: string) {
    At(r, 0) == 't' ==> At(r, 1) != 't' && At(r, 1) != 'o' && At(r, 1) != 'i'
  }

  lemma Peek(w: string, r: string)
    ensures forall i: nat :: i < |w| ==> At(w + r, i) == w[i]
    ensures forall i: nat :: i >= |w| ==> At(w + r, i) == At(r, i - |w|)
  {
  }

  lemma LexStep(w: string, r: string, value: nat)
    requires w != "" && Atom(w + r) == (value, |w|)
    ensures Lex(w + r) == [value] + Lex(r)
  {
    assert (w + r)[|w|..] == r;
  }

  lemma LexDigit(n: nat, r: string)
    requires n < 10 && Safe(r)
    ensures Lex(ONES[n] + r) == [n] + Lex(r)
  {
    Peek(ONES[n], r);
    LexStep(ONES[n], r, n);
  }

  lemma LexTeen(n: nat, r: string)
    requires 10 <= n < 20
    ensures Lex(ONES[n] + r) == [n] + Lex(r)
  {
    Peek(ONES[n], r);
    LexStep(ONES[n], r, n);
  }

  lemma LexTens(t: nat, r: string)
    requires 2 <= t < 10
    ensures Lex(TENS[t] + r) == [10 * t] + Lex(r)
  {
    Peek(TENS[t], r);
    LexStep(TENS[t], r, 10 * t);
  }

  lemma LexHundra(r: string)
    ensures Lex("hundra" + r) == [HUNDRED] + Lex(r)
  {
    Peek("hundra", r);
    LexStep("hundra", r, HUNDRED);
  }

  lemma LexTusen(r: string)
    ensures Lex("tusen" + r) == [THOUSAND] + Lex(r)
  {
    Peek("tusen", r);
    LexStep("tusen", r, THOUSAND);
  }

  lemma LexUsen(r: string)
    ensures Lex("usen" + r) == [THOUSAND] + Lex(r)
  {
    Peek("usen", r);
    LexStep("usen", r, THOUSAND);
  }

  lemma LexEn(r: string)
    requires At(r, 0) == 'm'
    ensures Lex("en" + r) == [1] + Lex(r)
  {
    Peek("en", r);
    LexStep("en", r, 1);
  }

  lemma LexMiljoner(r: string)
    ensures Lex("miljoner" + r) == [MILLION] + Lex(r)
  {
    Peek("miljoner", r);
    LexStep("miljoner", r, MILLION);
  }

  lemma LexMiljon(r: string)
    requires At(r, 0) != 'e' || At(r, 1) != 'r'
    ensures Lex("miljon" + r) == [MILLION] + Lex(r)
  {
    hide Lex, At;
    Peek("miljon", r);
    assert At("miljon" + r, 6) == At(r, 0) && At("miljon" + r, 7) == At(r, 1);
    LexStep("miljon", r, MILLION);
  }

  // ---- the words of a number

  function AtomsBelowHundred(n: nat): seq<nat> {
    if n < 20 then [n] else [10 * (n / 10)] + if n % 10 != 0 then [n % 10] else []
  }

  function RestAtoms(n: nat): seq<nat> {
    if n != 0 then AtomsBelowHundred(n) else []
  }

  function AtomsBelowThousand(n: nat): seq<nat> {
    var hundreds, rest := n / 100, n % 100;
    (if hundreds == 0 then [] else (if hundreds == 1 then [] else [hundreds]) + [HUNDRED]) + RestAtoms(rest)
  }

  function AtomsBelowMillion(n: nat): seq<nat> {
    if 1100 <= n <= 1999 then AtomsBelowHundred(n / 100) + [HUNDRED] + RestAtoms(n % 100)
    else
      var thousands, rest := n / 1000, n % 1000;
      (if thousands == 0 then [] else (if thousands == 1 then [] else AtomsBelowThousand(thousands)) + [THOUSAND])
      + AtomsBelowThousand(rest)
  }

  function AtomsCardinal(n: nat): seq<nat> {
    var millions, rest := n / 1_000_000, n % 1_000_000;
    if n == 0 then [0]
    else
      (if millions == 0 then [] else AtomsBelowThousand(millions) + [MILLION])
      + (if rest != 0 then AtomsBelowMillion(rest) else [])
  }

  lemma LexBelowHundred(n: nat, r: string)
    requires n < 100 && Safe(r)
    ensures Lex(BelowHundred(n) + r) == AtomsBelowHundred(n) + Lex(r)
  {
    hide Lex;
    if n < 10 {
      LexDigit(n, r);
    } else if n < 20 {
      LexTeen(n, r);
    } else {
      LexTensAndOnes(n / 10, n % 10, r);
    }
  }

  lemma LexTensAndOnes(tens: nat, ones: nat, r: string)
    requires 2 <= tens < 10 && ones < 10 && Safe(r)
    ensures Lex(TENS[tens] + (if ones != 0 then ONES[ones] else "") + r)
         == [10 * tens] + (if ones != 0 then [ones] else []) + Lex(r)
  {
    hide Lex;
    var word := if ones != 0 then ONES[ones] else "";
    Associative(TENS[tens], word, r);
    LexTens(tens, word + r);
    if ones != 0 {
      LexDigit(ones, r);
    } else {
      assert word + r == r;
    }
  }

  /** The words after "hundra", which may be none. */
  lemma LexRest(n: nat, r: string)
    requires n < 100 && Safe(r)
    ensures Lex((if n != 0 then BelowHundred(n) else "") + r) == RestAtoms(n) + Lex(r)
  {
    if n != 0 {
      LexBelowHundred(n, r);
    } else {
      assert "" + r == r;
    }
  }

  lemma LexBelowThousand(n: nat, r: string)
    requires n < 1000 && Safe(r)
    ensures Lex(BelowThousand(n) + r) == AtomsBelowThousand(n) + Lex(r)
  {
    hide Lex, Atom, BelowHundred, AtomsBelowHundred;
    var hundreds, rest := n / 100, n % 100;
    var tail := (if rest != 0 then BelowHundred(rest) else "");
    LexRest(rest, r);
    if hundreds == 0 {
      assert BelowThousand(n) + r == tail + r;
    } else if hundreds == 1 {
      assert BelowThousand(n) + r == "hundra" + (tail + r);
      LexHundra(tail + r);
    } else {
      assert BelowThousand(n) + r == ONES[hundreds] + ("hundra" + (tail + r));
      LexHundra(tail + r);
      Peek("hundra", tail + r);
      LexDigit(hundreds, "hundra" + (tail + r));
    }
  }

  // ---- the long t

  ghost predicate NoTriple(s: string) {
    forall i :: 0 <= i < |s| - 2 ==> !(s[i] == 't' && s[i + 1] == 't' && s[i + 2] == 't')
  }

  lemma {:induction false} CollapseNothing(s: string)
    requires NoTriple(s)
    ensures Collapse(s) == s
  {
    if |s| >= 3 {
      var rest := s[1..];
      assert forall i :: 0 <= i < |rest| ==> rest[i] == s[i + 1];
      CollapseNothing(rest);
    }
  }

  lemma NoTripleTail(s: string)
    requires s != "" && NoTriple(s)
    ensures NoTriple(s[1..])
  {
    var rest := s[1..];
    assert forall i :: 0 <= i < |rest| ==> rest[i] == s[i + 1];
  }

  lemma CollapseCons(c: char, s: string)
    requires |s| >= 2 && !(c == 't' && s[0] == 't' && s[1] == 't')
    ensures Collapse([c] + s) == [c] + Collapse(s)
  {
    assert ([c] + s)[1..] == s;
  }

  lemma {:induction false} CollapseFirst(a: string, b: string)
    requires NoTriple(a + "tt")
    ensures Collapse(a + "ttt" + b) == a + "tt" + Collapse(b)
  {
    if a == "" {
      assert (a + "ttt" + b)[3..] == b;
    } else {
      hide Collapse, NoTriple;
      var c, rest := a[0], a[1..];
      assert (a + "tt")[1..] == rest + "tt";
      NoTripleTail(a + "tt");
      CollapseFirst(rest, b);
      assert a == [c] + rest;
      CollapseBefore(c, rest, b);
      assert a + "ttt" + b == [c] + (rest + "ttt" + b);
      Associative([c], rest, "tt");
      Associative([c], rest + "tt", Collapse(b));
    }
  }

  /** A character that begins no triple is kept. */
  lemma CollapseBefore(c: char, rest: string, b: string)
    requires NoTriple([c] + rest + "tt")
    ensures Collapse([c] + (rest + "ttt" + b)) == [c] + Collapse(rest + "ttt" + b)
  {
    hide Collapse;
    var whole, tail := [c] + rest + "tt", rest + "ttt" + b;
    assert whole[0] == c && whole[1] == tail[0] && whole[2] == tail[1];
    CollapseCons(c, tail);
  }

  lemma NoTripleAppend(a: string, b: string)
    requires NoTriple(a) && NoTriple(b)
    requires a == "" || b == "" || a[|a| - 1] != 't' || b[0] != 't'
    ensures NoTriple(a + b)
  {
    var s := a + b;
    forall i | 0 <= i < |s| - 2 ensures !(s[i] == 't' && s[i + 1] == 't' && s[i + 2] == 't') {
      if i + 2 < |a| {
        assert !(a[i] == 't' && a[i + 1] == 't' && a[i + 2] == 't');
      } else if i >= |a| {
        var j := i - |a|;
        assert !(b[j] == 't' && b[j + 1] == 't' && b[j + 2] == 't');
      }
    }
  }

  /** Only "ett" ends in t, and no word holds three of them in a row. */
  ghost predicate Plain(s: string, ett: bool) {
    && s != "" && NoTriple(s)
    && (s[|s| - 1] == 't' <==> ett)
    && (ett ==> EndsWith(s, "ett"))
  }

  lemma PlainOnes(n: nat)
    requires n < 20
    ensures Plain(ONES[n], n == 1)
  {
    if n == 1 {
      assert ONES[1][0..] == "ett";
    }
  }

  lemma PlainTens(t: nat)
    requires 2 <= t < 10
    ensures Plain(TENS[t], false)
  {
  }

  lemma PlainAppend(a: string, b: string, ett: bool)
    requires Plain(a, false) && Plain(b, ett)
    ensures Plain(a + b, ett)
  {
    NoTripleAppend(a, b);
    if ett {
      assert (a + b)[|a + b| - 3..] == b[|b| - 3..];
    }
  }

  predicate EndsInOne(n: nat) {
    n % 10 == 1 && n % 100 != 11
  }

  lemma PlainTensAndOnes(tens: nat, ones: nat)
    requires 2 <= tens < 10 && ones < 10
    ensures Plain(TENS[tens] + (if ones != 0 then ONES[ones] else ""), ones == 1)
  {
    hide Plain;
    PlainTens(tens);
    if ones != 0 {
      PlainOnes(ones);
      PlainAppend(TENS[tens], ONES[ones], ones == 1);
    } else {
      assert TENS[tens] + "" == TENS[tens];
    }
  }

  lemma PlainBelowHundred(n: nat)
    requires 0 < n < 100
    ensures Plain(BelowHundred(n), EndsInOne(n))
  {
    hide Plain;
    if n < 20 {
      PlainOnes(n);
    } else {
      PlainTensAndOnes(n / 10, n % 10);
      assert EndsInOne(n) <==> n % 10 == 1;
    }
  }

  lemma PlainHundra()
    ensures Plain("hundra", false)
  {
  }

  lemma PlainBelowThousand(n: nat)
    requires 0 < n < 1000
    ensures Plain(BelowThousand(n), EndsInOne(n))
  {
    hide Plain, BelowHundred;
    var hundreds, rest := n / 100, n % 100;
    PlainHundra();
    if rest != 0 {
      PlainBelowHundred(rest);
    }
    if hundreds == 0 {
      assert BelowThousand(n) == BelowHundred(rest);
    } else {
      var head := (if hundreds == 1 then "" else ONES[hundreds]) + "hundra";
      assert Plain(head, false) by {
        if hundreds == 1 {
          assert head == "hundra";
        } else {
          PlainOnes(hundreds);
          PlainAppend(ONES[hundreds], "hundra", false);
        }
      }
      if rest != 0 {
        PlainAppend(head, BelowHundred(rest), EndsInOne(rest));
      } else {
        assert BelowThousand(n) == head;
      }
    }
  }

  /** "ett" + "tusen" is written with one long t; nothing else changes. */
  lemma ThousandsWord(prefix: string, ett: bool)
    requires Plain(prefix, ett)
    ensures Collapse(prefix + "tusen") == prefix + (if ett then "usen" else "tusen")
  {
    if ett {
      var a := prefix[..|prefix| - 2];
      assert prefix[|prefix| - 3..] == "ett";
      assert prefix == a + "tt";
      assert prefix + "tusen" == a + "ttt" + "usen";
      CollapseFirst(a, "usen");
      CollapseNothing("usen");
      assert a + "tt" + "usen" == prefix + "usen";
    } else {
      NoTripleAppend(prefix, "tusen");
      CollapseNothing(prefix + "tusen");
    }
  }

  // ---- the whole cardinal

  lemma LexThousands(n: nat, r: string)
    requires 0 < n < 1000
    ensures Lex(Collapse((if n == 1 then "" else BelowThousand(n)) + "tusen") + r)
         == (if n == 1 then [] else AtomsBelowThousand(n)) + [THOUSAND] + Lex(r)
  {
    hide Lex, Atom, BelowThousand, AtomsBelowThousand, Plain, Collapse;
    LexTusen(r);
    LexUsen(r);
    if n == 1 {
      assert "" + "tusen" == "tusen";
      TusenStays();
    } else {
      var prefix, tail := BelowThousand(n), if EndsInOne(n) then "usen" else "tusen";
      PlainBelowThousand(n);
      ThousandsWord(prefix, EndsInOne(n));
      Peek("usen", r);
      Peek("tusen", r);
      LexBelowThousand(n, tail + r);
      assert prefix + tail + r == prefix + (tail + r);
    }
  }

  lemma TusenStays()
    ensures Collapse("tusen") == "tusen"
  {
    CollapseNothing("tusen");
  }

  lemma LexBelowMillion(n: nat)
    requires 0 < n < 1_000_000
    ensures Lex(BelowMillion(n)) == AtomsBelowMillion(n)
  {
    hide Lex, Atom, BelowThousand, AtomsBelowThousand, BelowHundred, AtomsBelowHundred, Collapse;
    LexNothing();
    if 1100 <= n <= 1999 {
      var tail := if n % 100 != 0 then BelowHundred(n % 100) else "";
      LexRest(n % 100, "");
      assert tail + "" == tail;
      LexHundra(tail);
      Peek("hundra", tail);
      LexBelowHundred(n / 100, "hundra" + tail);
      assert BelowMillion(n) == BelowHundred(n / 100) + ("hundra" + tail);
    } else {
      var thousands, rest := n / 1000, n % 1000;
      LexBelowThousand(rest, "");
      assert BelowThousand(rest) + "" == BelowThousand(rest);
      if thousands != 0 {
        NothingBelowThousand();
        LexThousands(thousands, BelowThousand(rest));
      }
    }
  }

  lemma NothingBelowThousand()
    ensures BelowThousand(0) == "" && AtomsBelowThousand(0) == []
  {
  }

  lemma LexNothing()
    ensures Lex("") == []
  {
  }

  /** miljon takes the common-gender "en": the "ett" a prefix ends in is exchanged. */
  lemma LexMillions(n: nat, r: string)
    requires 2 <= n < 1000
    ensures var prefix := BelowThousand(n);
      Lex((if EndsWith(prefix, "ett") then prefix[..|prefix| - 3] + "en" else prefix) + "miljoner" + r)
      == AtomsBelowThousand(n) + [MILLION] + Lex(r)
  {
    hide Lex, Atom, BelowThousand, AtomsBelowThousand;
    var prefix := BelowThousand(n);
    PlainBelowThousand(n);
    LexMiljoner(r);
    Peek("miljoner", r);
    if EndsInOne(n) {
      var front := BelowThousand(n - 1);
      WithoutOne(n);
      assert prefix[..|prefix| - 3] == front;
      var tail := "en" + ("miljoner" + r);
      LexEn("miljoner" + r);
      Peek("en", "miljoner" + r);
      LexBelowThousand(n - 1, tail);
      assert front + "en" + "miljoner" + r == front + tail;
    } else {
      assert !EndsWith(prefix, "ett");
      LexBelowThousand(n, "miljoner" + r);
      assert prefix + "miljoner" + r == prefix + ("miljoner" + r);
    }
  }

  lemma RestWithoutOne(n: nat)
    requires 0 < n < 100 && EndsInOne(n)
    ensures BelowHundred(n) == (if n > 1 then BelowHundred(n - 1) else "") + "ett"
    ensures AtomsBelowHundred(n) == RestAtoms(n - 1) + [1]
  {
    if n >= 20 {
      assert (n - 1) / 10 == n / 10 && (n - 1) % 10 == 0;
    }
  }

  lemma WithoutOne(n: nat)
    requires 2 <= n < 1000 && EndsInOne(n)
    ensures BelowThousand(n) == BelowThousand(n - 1) + "ett"
    ensures AtomsBelowThousand(n) == AtomsBelowThousand(n - 1) + [1]
  {
    hide BelowHundred, AtomsBelowHundred;
    assert (n - 1) / 100 == n / 100 && (n - 1) % 100 == n % 100 - 1;
    RestWithoutOne(n % 100);
  }

  lemma LexCardinal(n: nat)
    requires n <= MAX_CARDINAL
    ensures Lex(Cardinal(n)) == AtomsCardinal(n)
  {
    hide Atom, BelowThousand, AtomsBelowThousand, BelowMillion, AtomsBelowMillion, Lex;
    LexNothing();
    var millions, rest := n / 1_000_000, n % 1_000_000;
    var tail := if rest != 0 then BelowMillion(rest) else "";
    if n == 0 {
      LexDigit(0, "");
      assert ONES[0] + "" == ONES[0];
    } else {
      if rest != 0 {
        LexBelowMillion(rest);
      }
      if millions == 1 {
        assert "enmiljon" + tail == "en" + ("miljon" + tail);
        Peek("miljon", tail);
        LexEn("miljon" + tail);
        NoErFollows(rest);
        LexMiljon(tail);
        OneAlone();
      } else if millions > 1 {
        LexMillions(millions, tail);
      }
    }
  }

  lemma OneAlone()
    ensures AtomsBelowThousand(1) == [1]
  {
  }

  /** No number word begins with "er". */
  ghost predicate NotEr(s: string) {
    |s| >= 2 && (s[0] != 'e' || s[1] != 'r')
  }

  lemma NotErBelowHundred(n: nat)
    requires n < 100
    ensures NotEr(BelowHundred(n))
  {
    if n < 20 {
    } else {
      assert NotEr(TENS[n / 10]);
    }
  }

  lemma NotErBelowThousand(n: nat)
    requires 0 < n < 1000
    ensures NotEr(BelowThousand(n))
  {
    hide BelowHundred;
    if n / 100 > 1 {
    } else if n / 100 == 0 {
      NotErBelowHundred(n);
    }
  }

  lemma NotErBelowMillion(n: nat)
    requires 0 < n < 1_000_000
    ensures NotEr(BelowMillion(n))
  {
    hide BelowHundred, BelowThousand, Collapse;
    if 1100 <= n <= 1999 {
      NotErBelowHundred(n / 100);
    } else if n / 1000 == 0 {
      NotErBelowThousand(n);
    } else if n / 1000 == 1 {
      TusenStays();
      assert "" + "tusen" == "tusen";
    } else {
      NotErBelowThousand(n / 1000);
      PlainBelowThousand(n / 1000);
      ThousandsWord(BelowThousand(n / 1000), EndsInOne(n / 1000));
    }
  }

  lemma NoErFollows(n: nat)
    requires n < 1_000_000
    ensures var tail := if n != 0 then BelowMillion(n) else ""; At(tail, 0) != 'e' || At(tail, 1) != 'r'
  {
    if n != 0 {
      NotErBelowMillion(n);
    }
  }

  // ---- the value of the words

  lemma EvalBelowHundred(n: nat, atoms: seq<nat>, total: nat, group: nat)
    requires n < 100
    ensures Eval(AtomsBelowHundred(n) + atoms, total, group) == Eval(atoms, total, group + n)
  {
    if n < 20 {
    } else if n % 10 == 0 {
      assert AtomsBelowHundred(n) + atoms == [10 * (n / 10)] + atoms;
    } else {
      assert AtomsBelowHundred(n) + atoms == [10 * (n / 10)] + ([n % 10] + atoms);
    }
  }

  lemma EvalHundred(atoms: seq<nat>, total: nat, group: nat)
    ensures Eval([HUNDRED] + atoms, total, group) == Eval(atoms, total, AtLeastOne(group) * 100)
  {
    assert ([HUNDRED] + atoms)[1..] == atoms;
  }

  lemma EvalMillion(atoms: seq<nat>, total: nat, group: nat)
    ensures Eval([MILLION] + atoms, total, group) == Eval(atoms, total + group * 1_000_000, 0)
  {
    assert ([MILLION] + atoms)[1..] == atoms;
  }

  /** Number words in hundreds: `head` of them, and the rest. */
  lemma EvalHundreds(head: nat, rest: nat, atoms: seq<nat>, total: nat)
    requires head < 100 && rest < 100
    ensures Eval((if head == 1 then [] else AtomsBelowHundred(head)) + [HUNDRED] + RestAtoms(rest) + atoms, total, 0)
         == Eval(atoms, total, AtLeastOne(head) * 100 + rest)
  {
    hide Eval, AtomsBelowHundred;
    var front := if head == 1 then [] else AtomsBelowHundred(head);
    var tail := RestAtoms(rest) + atoms;
    assert front + [HUNDRED] + RestAtoms(rest) + atoms == front + ([HUNDRED] + tail);
    if head == 1 {
      assert front + ([HUNDRED] + tail) == [HUNDRED] + tail;
      EvalHundred(tail, total, 0);
    } else {
      EvalBelowHundred(head, [HUNDRED] + tail, total, 0);
      EvalHundred(tail, total, head);
    }
    EvalRest(rest, atoms, total, AtLeastOne(head) * 100);
  }

  lemma EvalRest(rest: nat, atoms: seq<nat>, total: nat, group: nat)
    requires rest < 100
    ensures Eval(RestAtoms(rest) + atoms, total, group) == Eval(atoms, total, group + rest)
  {
    if rest != 0 {
      EvalBelowHundred(rest, atoms, total, group);
    } else {
      assert RestAtoms(rest) + atoms == atoms;
    }
  }

  lemma EvalBelowThousand(n: nat, atoms: seq<nat>, total: nat)
    requires n < 1000
    ensures Eval(AtomsBelowThousand(n) + atoms, total, 0) == Eval(atoms, total, n)
  {
    hide Eval;
    if n / 100 == 0 {
      assert AtomsBelowThousand(n) + atoms == RestAtoms(n) + atoms;
      EvalRest(n, atoms, total, 0);
    } else {
      EvalHundreds(n / 100, n % 100, atoms, total);
    }
  }

  lemma EvalBelowMillion(n: nat, total: nat)
    requires n < 1_000_000
    ensures Eval(AtomsBelowMillion(n), total, 0) == total + n
  {
    hide AtomsBelowHundred, AtomsBelowThousand;
    var thousands, rest := n / 1000, n % 1000;
    var tail := AtomsBelowThousand(rest);
    assert tail + [] == tail;
    if 1100 <= n <= 1999 {
      EvalHundreds(n / 100, n % 100, [], total);
      assert AtomsBelowMillion(n) + [] == AtomsBelowMillion(n);
    } else if thousands == 0 {
      EvalBelowThousand(rest, [], total);
      assert AtomsBelowMillion(n) == tail;
    } else {
      if thousands == 1 {
        assert AtomsBelowMillion(n) == [THOUSAND] + tail;
      } else {
        assert AtomsBelowMillion(n) == AtomsBelowThousand(thousands) + ([THOUSAND] + tail);
        EvalBelowThousand(thousands, [THOUSAND] + tail, total);
      }
      EvalBelowThousand(rest, [], total + thousands * 1000);
    }
  }

  lemma EvalCardinal(n: nat)
    requires n <= MAX_CARDINAL
    ensures Eval(AtomsCardinal(n), 0, 0) == n
  {
    hide AtomsBelowThousand, AtomsBelowMillion, Eval;
    var millions, rest := n / 1_000_000, n % 1_000_000;
    var tail := if rest != 0 then AtomsBelowMillion(rest) else [];
    EvalNothing(millions * 1_000_000);
    if n == 0 {
      EvalZero();
    } else if millions == 0 {
      EvalBelowMillion(rest, 0);
      assert AtomsCardinal(n) == tail;
    } else {
      assert AtomsCardinal(n) == AtomsBelowThousand(millions) + ([MILLION] + tail);
      EvalBelowThousand(millions, [MILLION] + tail, 0);
      EvalMillion(tail, 0, millions);
      if rest != 0 {
        EvalBelowMillion(rest, millions * 1_000_000);
      }
    }
  }

  lemma EvalNothing(total: nat)
    ensures Eval([], total, 0) == total
  {
  }

  lemma EvalZero()
    ensures Eval([0], 0, 0) == 0
  {
    assert [0] + [] == [0];
  }

  // ---- figures are never taken for dictated digits, nor the other way round

  ghost predicate HasBig(atoms: seq<nat>) {
    exists i :: 0 <= i < |atoms| && atoms[i] >= 10
  }

  lemma BigInBoth(a: seq<nat>, b: seq<nat>)
    requires HasBig(a) || HasBig(b)
    ensures HasBig(a + b)
  {
    if HasBig(a) {
      var i :| 0 <= i < |a| && a[i] >= 10;
      assert (a + b)[i] >= 10;
    } else {
      var i :| 0 <= i < |b| && b[i] >= 10;
      assert (a + b)[|a| + i] >= 10;
    }
  }

  lemma BigBelowThousand(n: nat)
    requires 10 <= n < 1000
    ensures HasBig(AtomsBelowThousand(n))
  {
    var front := if n / 100 == 0 then [] else (if n / 100 == 1 then [] else [n / 100]) + [HUNDRED];
    if n / 100 != 0 {
      assert front[|front| - 1] >= 10;
    } else {
      assert RestAtoms(n)[0] >= 10;
    }
    BigInBoth(front, RestAtoms(n % 100));
  }

  lemma BigBelowMillion(n: nat)
    requires 10 <= n < 1_000_000
    ensures HasBig(AtomsBelowMillion(n))
  {
    hide AtomsBelowThousand, AtomsBelowHundred;
    if 1100 <= n <= 1999 {
      var front := AtomsBelowHundred(n / 100) + [HUNDRED];
      assert front[|front| - 1] >= 10;
      BigInBoth(front, RestAtoms(n % 100));
    } else if n / 1000 == 0 {
      BigBelowThousand(n);
      BigInBoth([], AtomsBelowThousand(n));
    } else {
      var front := (if n / 1000 == 1 then [] else AtomsBelowThousand(n / 1000)) + [THOUSAND];
      assert front[|front| - 1] >= 10;
      BigInBoth(front, AtomsBelowThousand(n % 1000));
    }
  }

  lemma FiguresAreNotDictated(n: nat)
    requires n <= MAX_CARDINAL
    ensures !Dictated(AtomsCardinal(n))
  {
    hide AtomsBelowThousand, AtomsBelowMillion;
    var millions, rest := n / 1_000_000, n % 1_000_000;
    var tail := if rest != 0 then AtomsBelowMillion(rest) else [];
    if millions != 0 {
      var front := AtomsBelowThousand(millions) + [MILLION];
      assert front[|front| - 1] >= 10;
      BigInBoth(front, tail);
    } else if n >= 10 {
      BigBelowMillion(n);
      BigInBoth([], tail);
    } else {
      OneDigit(n);
    }
  }

  lemma OneDigit(n: nat)
    requires n < 10
    ensures |AtomsCardinal(n)| == 1
  {
  }

  // ---- digit by digit

  function Values(digits: string): seq<nat> {
    Map(DigitValue, digits)
  }

  lemma {:induction false} LexDigits(digits: string)
    requires AllDigits(digits)
    ensures Lex(DigitByDigit(digits)) == Values(digits)
    ensures Safe(DigitByDigit(digits))
  {
    if digits == "" {
      LexNothing();
    } else {
      var rest := digits[1..];
      LexDigits(rest);
      LexDigit(DigitValue(digits[0]), DigitByDigit(rest));
      DigitStartsSafe(DigitValue(digits[0]), DigitByDigit(rest));
      assert Values(digits) == [DigitValue(digits[0])] + Values(rest);
    }
  }

  lemma DigitStartsSafe(n: nat, r: string)
    requires n < 10
    ensures Safe(ONES[n] + r)
  {
    Peek(ONES[n], r);
  }

  lemma ValuesBack(digits: string)
    requires AllDigits(digits)
    ensures forall i :: 0 <= i < |Values(digits)| ==> Values(digits)[i] < 10
    ensures Digits(Values(digits)) == digits
  {
    var atoms := Values(digits);
    forall i | 0 <= i < |digits| ensures atoms[i] < 10 && DigitChar(atoms[i]) == digits[i] {
      var c := digits[i];
      assert IsDigit(c);
    }
  }

  lemma DictatedReadsBack(digits: string)
    requires AllDigits(digits) && |digits| >= 2
    ensures ReadNumber(DigitByDigit(digits)) == digits
  {
    hide Lex, Digits, Eval, DigitByDigit;
    LexDigits(digits);
    ValuesBack(digits);
  }

  lemma {:induction false} ShortMeansSmall(digits: string)
    requires AllDigits(digits) && |digits| == 1
    ensures ToInt(digits) < 10
  {
    assert digits[..0] == "";
  }
}
