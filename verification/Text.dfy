/** Text as the pipeline cuts it: whitespace tokens, stripping, joining, and the two grammar tests on a
    word. The Unicode tables themselves are a parameter, and `Sane` says what the code relies on about
    them: which characters are blanks, word characters and digits, and what value a digit has. */
module Text {
  import opened Base
  import Decimal

  /** Python's character classes: str.isspace, the regex classes \w and \d, str.isalpha, str.islower; and the
      value int() gives a digit. */
  datatype CharTable = CharTable(
    space: char -> bool,
    wordChar: char -> bool,
    digit: char -> bool,
    value: char -> nat,
    letter: char -> bool,
    lower: char -> bool)

  /** What the code relies on: a blank is whitespace, digits are word characters, whitespace is not; every
      digit has a value below ten, and the ASCII digits are digits of the usual values. */
  ghost predicate Sane(u: CharTable) {
    && u.space(' ')
    && (forall c :: u.space(c) ==> !u.wordChar(c))
    && (forall c :: u.digit(c) ==> u.wordChar(c) && u.value(c) < 10)
    && (forall c :: Decimal.IsDigit(c) ==> u.digit(c) && u.value(c) == Decimal.DigitValue(c))
  }

  // ---- str.split()

  function Emit(token: string): seq<string> {
    if token == "" then [] else [token]
  }

  function SplitFrom(u: CharTable, token: string, s: string): seq<string>
    decreases |s|
  {
    if s == "" then Emit(token)
    else if u.space(s[0]) then Emit(token) + SplitFrom(u, "", s[1..])
    else SplitFrom(u, token + [s[0]], s[1..])
  }

  /** The whitespace tokens of a text, in order. */
  function Split(u: CharTable, s: string): seq<string> {
    SplitFrom(u, "", s)
  }

  lemma {:induction false} SplitFromAtSpace(u: CharTable, token: string, a: string, b: string)
    requires b == "" || u.space(b[0])
    ensures SplitFrom(u, token, a + b) == SplitFrom(u, token, a) + Split(u, b)
    decreases |a|
  {
    if a == "" {
      assert a + b == b;
      assert b != "" ==> SplitFrom(u, "", b) == SplitFrom(u, "", b[1..]);
    } else {
      assert (a + b)[0] == a[0] && (a + b)[1..] == a[1..] + b;
      if u.space(a[0]) {
        SplitFromAtSpace(u, "", a[1..], b);
      } else {
        SplitFromAtSpace(u, token + [a[0]], a[1..], b);
      }
    }
  }

  /** Cutting a text in front of a whitespace character cuts no token. */
  lemma SplitAtSpace(u: CharTable, a: string, b: string)
    requires b == "" || u.space(b[0])
    ensures Split(u, a + b) == Split(u, a) + Split(u, b)
  {
    SplitFromAtSpace(u, "", a, b);
  }

  lemma SplitLeadingSpace(u: CharTable, s: string)
    requires s != "" && u.space(s[0])
    ensures Split(u, s[1..]) == Split(u, s)
  {
  }

  lemma SplitTrailingSpace(u: CharTable, s: string)
    requires s != "" && u.space(s[|s| - 1])
    ensures Split(u, s[..|s| - 1]) == Split(u, s)
  {
    var n := |s| - 1;
    assert s == s[..n] + [s[n]];
    SplitAtSpace(u, s[..n], [s[n]]);
    SplitLeadingSpace(u, [s[n]]);
    assert [s[n]][1..] == "";
  }

  /** Joining two texts with a blank puts their tokens side by side. */
  lemma SplitJoined(u: CharTable, a: string, b: string)
    requires u.space(' ')
    ensures Split(u, a + " " + b) == Split(u, a) + Split(u, b)
  {
    assert a + " " + b == a + (" " + b);
    SplitAtSpace(u, a, " " + b);
    SplitLeadingSpace(u, " " + b);
    assert (" " + b)[1..] == b;
  }

  /** Split's own meaning: tokens are non-empty, blank-free, and hold every other character. */
  lemma {:induction false} SplitTokens(u: CharTable, token: string, s: string)
    requires forall c :: c in token ==> !u.space(c)
    ensures forall t :: t in SplitFrom(u, token, s) ==> t != "" && forall c :: c in t ==> !u.space(c)
    ensures Flatten(SplitFrom(u, token, s)) == token + Filter(c => !u.space(c), s)
    decreases |s|
  {
    if s == "" {
      FlattenSingle(token);
    } else if u.space(s[0]) {
      SplitTokens(u, "", s[1..]);
      FlattenSingle(token);
      FlattenAppend(Emit(token), SplitFrom(u, "", s[1..]));
    } else {
      SplitTokens(u, token + [s[0]], s[1..]);
      assert token + [s[0]] + Filter(c => !u.space(c), s[1..]) == token + ([s[0]] + Filter(c => !u.space(c), s[1..]));
    }
  }

  // ---- str.strip()

  function LeftStrip(u: CharTable, s: string): string {
    if s != "" && u.space(s[0]) then LeftStrip(u, s[1..]) else s
  }

  function RightStrip(u: CharTable, s: string): string {
    if s != "" && u.space(s[|s| - 1]) then RightStrip(u, s[..|s| - 1]) else s
  }

  function Strip(u: CharTable, s: string): string {
    RightStrip(u, LeftStrip(u, s))
  }

  lemma {:induction false} LeftStripTokens(u: CharTable, s: string)
    ensures Split(u, LeftStrip(u, s)) == Split(u, s)
  {
    if s != "" && u.space(s[0]) {
      LeftStripTokens(u, s[1..]);
      SplitLeadingSpace(u, s);
    }
  }

  lemma {:induction false} RightStripTokens(u: CharTable, s: string)
    ensures Split(u, RightStrip(u, s)) == Split(u, s)
  {
    if s != "" && u.space(s[|s| - 1]) {
      RightStripTokens(u, s[..|s| - 1]);
      SplitTrailingSpace(u, s);
    }
  }

  /** Stripping loses no token. */
  lemma StripTokens(u: CharTable, s: string)
    ensures Split(u, Strip(u, s)) == Split(u, s)
  {
    LeftStripTokens(u, s);
    RightStripTokens(u, LeftStrip(u, s));
  }

  // ---- " ".join

  function Join(parts: seq<string>): string {
    if parts == [] then ""
    else if |parts| == 1 then parts[0]
    else parts[0] + " " + Join(parts[1..])
  }

  /** Appending one more part, or joining two joined texts. */
  lemma {:induction false} JoinAppend(a: seq<string>, b: seq<string>)
    requires a != [] && b != []
    ensures Join(a + b) == Join(a) + " " + Join(b)
  {
    if |a| == 1 {
      assert (a + b)[0] == a[0] && (a + b)[1..] == b;
    } else {
      JoinAppend(a[1..], b);
      assert (a + b)[0] == a[0] && (a + b)[1..] == a[1..] + b;
      assert a[0] + " " + (Join(a[1..]) + " " + Join(b)) == (a[0] + " " + Join(a[1..])) + " " + Join(b);
    }
  }

  // ---- str.find

  predicate Occurs(s: string, t: string, at: nat) {
    at + |t| <= |s| && s[at..at + |t|] == t
  }

  /** The first occurrence of `t` at or after `from`, or None. */
  function Find(s: string, t: string, from: nat): (at: Option<nat>)
    ensures at.Some? ==> from <= at.value && Occurs(s, t, at.value)
    ensures at.Some? ==> forall i :: from <= i < at.value ==> !Occurs(s, t, i)
    ensures at.None? ==> forall i :: from <= i ==> !Occurs(s, t, i)
    decreases |s| - from
  {
    if from + |t| > |s| then None
    else if s[from..from + |t|] == t then Some(from)
    else Find(s, t, from + 1)
  }

  // ---- the grammar tests on a word

  const SENTENCE_END := ".?!…"
  const CLOSERS := "\"'”’»)]"

  /** Whether a word ends with sentence punctuation, closing quotes and brackets aside. */
  predicate EndsSentence(text: string) {
    text != "" &&
    var last := text[|text| - 1];
    if last in CLOSERS then EndsSentence(text[..|text| - 1]) else last in SENTENCE_END
  }

  /** Whether the first letter of a word is lower case; a word without letters gives no signal. */
  predicate ContinuesSentence(u: CharTable, text: string) {
    text != "" && if u.letter(text[0]) then u.lower(text[0]) else ContinuesSentence(u, text[1..])
  }

  predicate IsMark(c: char) {
    c == '.' || c == '?' || c == '!' || c == '…'
  }

  predicate IsCloser(c: char) {
    c == '"' || c == '\'' || c == '”' || c == '’' || c == '»' || c == ')' || c == ']'
  }

  /** At k stands a sentence mark with nothing but closing quotes and brackets behind. */
  ghost predicate MarkAt(text: string, k: int) {
    0 <= k < |text| && IsMark(text[k]) && forall j :: k < j < |text| ==> IsCloser(text[j])
  }

  ghost predicate Marked(text: string) {
    exists k :: MarkAt(text, k)
  }

  /** The first letter is lower-case. */
  ghost predicate LowerFirst(u: CharTable, text: string) {
    exists k :: 0 <= k < |text| && u.letter(text[k]) && u.lower(text[k]) && forall j :: 0 <= j < k ==> !u.letter(text[j])
  }

  lemma MarksAndClosers(c: char)
    ensures c in SENTENCE_END <==> IsMark(c)
    ensures c in CLOSERS <==> IsCloser(c)
  {
  }

  lemma {:induction false} EndsSentenceIff(text: string)
    ensures EndsSentence(text) <==> Marked(text)
  {
    if text != "" {
      var n := |text| - 1;
      MarksAndClosers(text[n]);
      if IsCloser(text[n]) {
        EndsSentenceIff(text[..n]);
        MarkedBefore(text);
      } else if IsMark(text[n]) {
        assert MarkAt(text, n);
      }
    }
  }

  /** A closer at the end changes nothing. */
  lemma MarkedBefore(text: string)
    requires text != "" && IsCloser(text[|text| - 1])
    ensures Marked(text) <==> Marked(text[..|text| - 1])
  {
    var n := |text| - 1;
    var front := text[..n];
    forall k ensures MarkAt(text, k) <==> MarkAt(front, k) {
      if MarkAt(front, k) {
        forall j | k < j < |text| ensures IsCloser(text[j]) {
          assert j < n ==> text[j] == front[j];
        }
      }
    }
  }

  lemma {:induction false} ContinuesSentenceIff(u: CharTable, text: string)
    ensures ContinuesSentence(u, text) <==> LowerFirst(u, text)
  {
    if text != "" && !u.letter(text[0]) {
      var rest := text[1..];
      ContinuesSentenceIff(u, rest);
      if k :| 0 <= k < |rest| && u.letter(rest[k]) && u.lower(rest[k]) && forall j :: 0 <= j < k ==> !u.letter(rest[j]) {
        assert forall j :: 0 <= j < k + 1 ==> !u.letter(text[j]);
        assert u.letter(text[k + 1]) && u.lower(text[k + 1]);
      }
      if k :| 0 <= k < |text| && u.letter(text[k]) && u.lower(text[k]) && forall j :: 0 <= j < k ==> !u.letter(text[j]) {
        assert k > 0 && u.letter(rest[k - 1]) && u.lower(rest[k - 1]);
        assert forall j :: 0 <= j < k - 1 ==> rest[j] == text[j + 1];
      }
    }
  }

  /** Stripping takes the whitespace off both ends and nothing else. */
  lemma StripTakesTheEnds(u: CharTable, s: string)
    ensures exists a, b :: 0 <= a <= b <= |s| && Core(u, s, a, b) && Strip(u, s) == s[a..b]
  {
    var a := LeftStripCore(u, s);
    var n := RightStripCore(u, s[a..]);
    assert s[a..][..n] == s[a..a + n];
    assert Core(u, s, a, a + n);
  }

  /** s[a..b] begins and ends with no whitespace, and only whitespace is around it. */
  ghost predicate Core(u: CharTable, s: string, a: int, b: int) {
    && 0 <= a <= b <= |s|
    && (forall i :: 0 <= i < a || b <= i < |s| ==> u.space(s[i]))
    && (a < b ==> !u.space(s[a]) && !u.space(s[b - 1]))
  }

  lemma {:induction false} LeftStripCore(u: CharTable, s: string) returns (a: nat)
    ensures a <= |s| && LeftStrip(u, s) == s[a..] && (forall i :: 0 <= i < a ==> u.space(s[i])) && (a < |s| ==> !u.space(s[a]))
  {
    if s != "" && u.space(s[0]) {
      var n := LeftStripCore(u, s[1..]);
      a := n + 1;
      assert forall i :: 0 < i < a ==> s[i] == s[1..][i - 1];
    } else {
      a := 0;
    }
  }

  lemma {:induction false} RightStripCore(u: CharTable, s: string) returns (n: nat)
    ensures n <= |s| && RightStrip(u, s) == s[..n] && (forall i :: n <= i < |s| ==> u.space(s[i])) && (n > 0 ==> !u.space(s[n - 1]))
  {
    if s != "" && u.space(s[|s| - 1]) {
      n := RightStripCore(u, s[..|s| - 1]);
      assert s[..|s| - 1][..n] == s[..n];
    } else {
      n := |s|;
      assert s[..n] == s;
    }
  }
}
