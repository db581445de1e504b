/** src/vemsa/pipeline/normalize.py, spell_number_sv: Swedish cardinals, and a reader for them. */
module Speller {
  import opened Base
  import opened Decimal
  import opened Text

  // ---- the speller

  const ONES: seq<string> := [
    "noll", "ett", "två", "tre", "fyra", "fem", "sex", "sju", "åtta", "nio",
    "tio", "elva", "tolv", "tretton", "fjorton", "femton", "sexton", "sjutton", "arton", "nitton"]

  const TENS: seq<string> := [
    "", "", "tjugo", "trettio", "fyrtio", "femtio", "sextio", "sjuttio", "åttio", "nittio"]

  const MAX_CARDINAL := 999_999_999

  /** int() raises ValueError on a longer decimal string, leading zeros counted. */
  const MAX_INT_DIGITS := 4300

  function BelowHundred(n: nat): string
    requires n < 100
  {
    if n < 20 then ONES[n]
    else TENS[n / 10] + (if n % 10 != 0 then ONES[n % 10] else "")
  }

  function BelowThousand(n: nat): string
    requires n < 1000
  {
    var hundreds, rest := n / 100, n % 100;
    (if hundreds == 0 then "" else (if hundreds == 1 then "" else ONES[hundreds]) + "hundra")
    + (if rest != 0 then BelowHundred(rest) else "")
  }

  /** s.replace("ttt", "tt") */
  function Collapse(s: string): string {
    if |s| < 3 then s
    else if s[0] == 't' && s[1] == 't' && s[2] == 't' then "tt" + Collapse(s[3..])
    else [s[0]] + Collapse(s[1..])
  }

  function BelowMillion(n: nat): string
    requires n < 1_000_000
  {
    if 1100 <= n <= 1999 then
      BelowHundred(n / 100) + "hundra" + (if n % 100 != 0 then BelowHundred(n % 100) else "")
    else
      var thousands, rest := n / 1000, n % 1000;
      if thousands == 0 then BelowThousand(rest)
      else
        Collapse((if thousands == 1 then "" else BelowThousand(thousands)) + "tusen")
        + (if rest != 0 then BelowThousand(rest) else "")
  }

  predicate EndsWith(s: string, t: string) {
    |t| <= |s| && s[|s| - |t|..] == t
  }

  function Cardinal(n: nat): string
    requires n <= MAX_CARDINAL
  {
    var millions, rest := n / 1_000_000, n % 1_000_000;
    if n == 0 then ONES[0]
    else if millions == 0 then BelowMillion(rest)
    else
      (if millions == 1 then "enmiljon"
       else
         var prefix := BelowThousand(millions);
         (if EndsWith(prefix, "ett") then prefix[..|prefix| - 3] + "en" else prefix) + "miljoner")
      + (if rest != 0 then BelowMillion(rest) else "")
  }

  function DigitByDigit(digits: string): string {
    if digits == "" then "" else ONES[DigitValue(digits[0])] + DigitByDigit(digits[1..])
  }

  /** The digits as int() reads them, in whatever script they are written. */
  function AsciiDigits(u: CharTable, digits: string): string {
    seq(|digits|, i requires 0 <= i < |digits| => if u.value(digits[i]) < 10 then DigitChar(u.value(digits[i])) else '0')
  }

  /** Only a leading zero in ASCII is looked for, and a run that begins with one never gets to int(). */
  function SpellNumber(u: CharTable, digits: string): Option<string> {
    var read := AsciiDigits(u, digits);
    if |digits| > 1 && digits[0] == '0' then Some(DigitByDigit(read))
    else if digits == "" || |digits| > MAX_INT_DIGITS then None
    else if ToInt(read) > MAX_CARDINAL then Some(DigitByDigit(read))
    else Some(Cardinal(ToInt(read)))
  }

  // ---- the reader

  function At(s: string, i: nat): char {
    if i < |s| then s[i] else '.'
  }

  const HUNDRED := 100
  const THOUSAND := 1000
  const MILLION := 1_000_000

  /** The number word a spelling begins with, and how long it is. */
  function Atom(s: string): (nat, nat) {
    match At(s, 0)
    case 'n' =>
      if At(s, 1) == 'o' then (0, 4)
      else if At(s, 2) == 'o' then (9, 3)
      else if At(s, 4) == 'o' then (19, 6) else (90, 6)
    case 'e' =>
      if At(s, 1) == 't' then (1, 3)
      else if At(s, 1) == 'l' then (11, 4) else (1, 2)
    case 't' =>
      if At(s, 1) == 'v' then (2, 3)
      else if At(s, 1) == 'r' then
        if At(s, 3) == 't' && At(s, 4) == 't' then (if At(s, 5) == 'o' then (13, 7) else (30, 7)) else (3, 3)
      else if At(s, 1) == 'i' then (10, 3)
      else if At(s, 1) == 'o' then (12, 4)
      else if At(s, 1) == 'j' then (20, 5)
      else (THOUSAND, 5)
    case 'f' =>
      if At(s, 1) == 'y' then (if At(s, 3) == 'a' then (4, 4) else (40, 6))
      else if At(s, 1) == 'j' then (14, 7)
      else if At(s, 3) == 't' && At(s, 4) == 'o' then (15, 6)
      else if At(s, 3) == 't' && At(s, 4) == 'i' then (50, 6)
      else (5, 3)
    case 's' =>
      if At(s, 1) == 'e' then
        if At(s, 3) == 't' && At(s, 4) == 'o' then (16, 6)
        else if At(s, 3) == 't' && At(s, 4) == 'i' then (60, 6)
        else (6, 3)
      else if At(s, 3) == 't' && At(s, 4) == 't' then (if At(s, 5) == 'o' then (17, 7) else (70, 7))
      else (7, 3)
    case 'å' => if At(s, 3) == 'a' then (8, 4) else (80, 5)
    case 'a' => (18, 5)
    case 'h' => (HUNDRED, 6)
    case 'u' => (THOUSAND, 4)
    case 'm' => if At(s, 6) == 'e' && At(s, 7) == 'r' then (MILLION, 8) else (MILLION, 6)
    case _ => (0, 1)
  }

  /** A spelling cut into number words. */
  function Lex(s: string): seq<nat> {
    if s == "" then []
    else
      var atom := Atom(s);
      [atom.0] + if atom.1 < |s| then Lex(s[atom.1..]) else []
  }

  function AtLeastOne(n: nat): nat {
    if n == 0 then 1 else n
  }

  /** The value of number words: `total` is settled, `group` is still growing. */
  function Eval(atoms: seq<nat>, total: nat, group: nat): nat {
    if atoms == [] then total + group
    else if atoms[0] < HUNDRED then Eval(atoms[1..], total, group + atoms[0])
    else if atoms[0] == HUNDRED then Eval(atoms[1..], total, AtLeastOne(group) * 100)
    else if atoms[0] == THOUSAND then Eval(atoms[1..], total + AtLeastOne(group) * 1000, 0)
    else Eval(atoms[1..], total + group * 1_000_000, 0)
  }

  /** Read digit by digit: several words, all of them single digits. */
  predicate Dictated(atoms: seq<nat>) {
    |atoms| >= 2 && forall i :: 0 <= i < |atoms| ==> atoms[i] < 10
  }

  function Digits(atoms: seq<nat>): string
    requires forall i :: 0 <= i < |atoms| ==> atoms[i] < 10
  {
    seq(|atoms|, i requires 0 <= i < |atoms| => DigitChar(atoms[i]))
  }

  function ReadNumber(s: string): string {
    var atoms := Lex(s);
    if Dictated(atoms) then Digits(atoms) else Numeral(Eval(atoms, 0, 0))
  }
}
