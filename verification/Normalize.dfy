/** src/vemsa/pipeline/normalize.py: the tokens a text is aligned by. */
module Normalize {
  import opened Base
  import opened Text

  // ---- alignable_tokens

  /** Drop everything that is neither a word character nor whitespace. */
  function Keep(u: CharTable, text: string): string {
    Filter(c => u.wordChar(c) || u.space(c), text)
  }

  /** The tokens a text is aligned by. The text is taken to be NFKC-normalized. */
  function Tokens(u: CharTable, text: string): seq<string> {
    Split(u, Keep(u, text))
  }

  function AlignableTokens(u: CharTable, text: string): nat {
    |Tokens(u, text)|
  }

  /** Cutting in front of whitespace divides the tokens. */
  lemma TokensAtSpace(u: CharTable, a: string, b: string)
    requires b == "" || u.space(b[0])
    ensures Tokens(u, a + b) == Tokens(u, a) + Tokens(u, b)
  {
    FilterAppend(c => u.wordChar(c) || u.space(c), a, b);
    SplitAtSpace(u, Keep(u, a), Keep(u, b));
  }

  /** The counter is additive over texts joined by a blank: the tokens are, too. */
  lemma TokensJoined(u: CharTable, a: string, b: string)
    requires Sane(u)
    ensures Tokens(u, a + " " + b) == Tokens(u, a) + Tokens(u, b)
    ensures AlignableTokens(u, a + " " + b) == AlignableTokens(u, a) + AlignableTokens(u, b)
  {
    assert a + " " + b == a + (" " + b);
    TokensAtSpace(u, a, " " + b);
    TokensAfterSpace(u, " " + b);
    assert (" " + b)[1..] == b;
  }

  lemma TokensAfterSpace(u: CharTable, s: string)
    requires s != "" && u.space(s[0])
    ensures Tokens(u, s[1..]) == Tokens(u, s)
  {
    assert Keep(u, s) == [s[0]] + Keep(u, s[1..]);
    SplitLeadingSpace(u, Keep(u, s));
  }

  lemma TokensBeforeSpace(u: CharTable, s: string)
    requires s != "" && u.space(s[|s| - 1])
    ensures Tokens(u, s[..|s| - 1]) == Tokens(u, s)
  {
    var n := |s| - 1;
    assert s == s[..n] + s[n..];
    TokensAtSpace(u, s[..n], s[n..]);
    TokensAfterSpace(u, s[n..]);
    assert s[n..][1..] == "";
  }

  lemma {:induction false} TokensLeftStrip(u: CharTable, s: string)
    ensures Tokens(u, LeftStrip(u, s)) == Tokens(u, s)
  {
    if s != "" && u.space(s[0]) {
      TokensLeftStrip(u, s[1..]);
      TokensAfterSpace(u, s);
    }
  }

  lemma {:induction false} TokensRightStrip(u: CharTable, s: string)
    ensures Tokens(u, RightStrip(u, s)) == Tokens(u, s)
  {
    if s != "" && u.space(s[|s| - 1]) {
      TokensRightStrip(u, s[..|s| - 1]);
      TokensBeforeSpace(u, s);
    }
  }

  lemma TokensStrip(u: CharTable, s: string)
    ensures Tokens(u, Strip(u, s)) == Tokens(u, s)
  {
    TokensLeftStrip(u, s);
    TokensRightStrip(u, LeftStrip(u, s));
  }

  /** The tokens of several stripped texts joined by blanks: each text's own, in order. */
  lemma {:induction false} TokensOfJoin(u: CharTable, texts: seq<string>)
    requires Sane(u) && texts != []
    ensures Tokens(u, Join(Map(t => Strip(u, t), texts))) == Flatten(Map(t => Tokens(u, t), texts))
  {
    var parts := Map(t => Strip(u, t), texts);
    TokensStrip(u, texts[0]);
    if |texts| == 1 {
      assert Map(t => Tokens(u, t), texts) == [Tokens(u, texts[0])];
      FlattenSingle(Tokens(u, texts[0]));
    } else {
      TokensOfJoin(u, texts[1..]);
      assert parts[1..] == Map(t => Strip(u, t), texts[1..]);
      TokensJoined(u, parts[0], Join(parts[1..]));
      assert Map(t => Tokens(u, t), texts)[1..] == Map(t => Tokens(u, t), texts[1..]);
    }
  }

  // ---- number expansion

  function DigitRun(u: CharTable, s: string): (n: nat)
    ensures n <= |s|
    ensures forall i :: 0 <= i < n ==> u.digit(s[i])
    ensures n < |s| ==> !u.digit(s[n])
  {
    if s == "" || !u.digit(s[0]) then 0 else 1 + DigitRun(u, s[1..])
  }

  function NoSpace(u: CharTable, s: string): string {
    Filter(c => !u.space(c), s)
  }

  /** Every maximal digit run replaced by its spelling, whitespace removed from the spelling; nothing when
      the speller raises on one of them. */
  function Expand(u: CharTable, speller: string -> Option<string>, s: string): Option<string>
    decreases |s|
  {
    if s == "" then Some("")
    else if u.digit(s[0]) then
      var n := DigitRun(u, s);
      var spelled, rest := speller(s[..n]), Expand(u, speller, s[n..]);
      if spelled.Some? && rest.Some? then Some(NoSpace(u, spelled.value) + rest.value) else None
    else
      var rest := Expand(u, speller, s[1..]);
      if rest.Some? then Some([s[0]] + rest.value) else None
  }

  /** The same with a word for every run. */
  function Replace(u: CharTable, speller: string -> string, s: string): string
    decreases |s|
  {
    if s == "" then ""
    else if u.digit(s[0]) then
      var n := DigitRun(u, s);
      NoSpace(u, speller(s[..n])) + Replace(u, speller, s[n..])
    else [s[0]] + Replace(u, speller, s[1..])
  }

  /** The tokens the aligner sees: numbers spelled out, then everything else as in Tokens; none when the
      speller raises. The text is taken to be NFKC-normalized and lower-cased. */
  function NormalizedTokens(u: CharTable, speller: Option<string -> Option<string>>, text: string): Option<seq<string>> {
    match speller
    case None => Some(Tokens(u, text))
    case Some(spell) =>
      var expanded := Expand(u, spell, text);
      if expanded.Some? then Some(Tokens(u, expanded.value)) else None
  }

  ghost predicate AllDigits(u: CharTable, s: string) {
    forall c :: c in s ==> u.digit(c)
  }

  /** A speller fit for alignment: a digit run becomes a non-empty run of word characters. */
  ghost predicate SpellsWords(u: CharTable, speller: string -> string) {
    forall d: string :: d != "" && AllDigits(u, d) ==>
      speller(d) != "" && forall c :: c in speller(d) ==> u.wordChar(c)
  }

  // ---- which texts can be expanded

  /** s[i..j] is a digit run that no digit continues on either side. */
  predicate MaximalRun(u: CharTable, s: string, i: int, j: int) {
    && 0 <= i < j <= |s| && (forall k :: i <= k < j ==> u.digit(s[k]))
    && (i > 0 ==> !u.digit(s[i - 1])) && (j < |s| ==> !u.digit(s[j]))
  }

  /** The speller raises on none of the text's maximal digit runs. */
  ghost predicate Spellable(u: CharTable, speller: string -> Option<string>, s: string) {
    forall i, j :: MaximalRun(u, s, i, j) ==> speller(s[i..j]).Some?
  }

  function OrDigits(speller: string -> Option<string>): string -> string {
    (d: string) => match speller(d) case Some(word) => word case None => d
  }

  /** A text can be expanded exactly when it is spellable, and then every run is replaced by its word. */
  lemma {:induction false} ExpandsIff(u: CharTable, speller: string -> Option<string>, s: string)
    ensures Expand(u, speller, s).Some? <==> Spellable(u, speller, s)
    ensures Spellable(u, speller, s) ==> Expand(u, speller, s) == Some(Replace(u, OrDigits(speller), s))
    decreases |s|
  {
    if s == "" {
    } else if u.digit(s[0]) {
      var n := DigitRun(u, s);
      ExpandsIff(u, speller, s[n..]);
      FirstRunSpellable(u, speller, s);
    } else {
      ExpandsIff(u, speller, s[1..]);
      NoRunSpellable(u, speller, s);
    }
  }

  /** The runs of a rest, told in the whole text. */
  lemma RunOfRest(u: CharTable, s: string, n: int, i: int, j: int)
    requires 0 <= n <= |s| && (i == 0 && n > 0 ==> !u.digit(s[n - 1])) && MaximalRun(u, s[n..], i, j)
    ensures MaximalRun(u, s, i + n, j + n) && s[n..][i..j] == s[i + n..j + n]
  {
    var rest := s[n..];
    assert i > 0 ==> rest[i - 1] == s[i + n - 1];
    forall k | i + n <= k < j + n ensures u.digit(s[k]) {
      assert u.digit(rest[k - n]);
    }
  }

  lemma RunInRest(u: CharTable, s: string, n: int, i: int, j: int)
    requires 0 <= n <= i && MaximalRun(u, s, i, j)
    ensures MaximalRun(u, s[n..], i - n, j - n) && s[n..][i - n..j - n] == s[i..j]
  {
    var rest := s[n..];
    assert i > n ==> rest[i - n - 1] == s[i - 1];
    forall k | i - n <= k < j - n ensures u.digit(rest[k]) {
      assert u.digit(s[k + n]);
    }
  }

  /** Besides the first run there are only runs after it. */
  lemma RunsApart(u: CharTable, s: string, n: int, i: int, j: int)
    requires MaximalRun(u, s, 0, n) && MaximalRun(u, s, i, j)
    ensures (i == 0 && j == n) || i > n
  {
  }

  lemma FirstRunSpellable(u: CharTable, speller: string -> Option<string>, s: string)
    requires s != "" && u.digit(s[0])
    ensures var n := DigitRun(u, s);
      n > 0 && (Spellable(u, speller, s) <==> speller(s[..n]).Some? && Spellable(u, speller, s[n..]))
  {
    var n := DigitRun(u, s);
    assert MaximalRun(u, s, 0, n) && s[0..n] == s[..n];
    if Spellable(u, speller, s) {
      forall i, j | MaximalRun(u, s[n..], i, j) ensures speller(s[n..][i..j]).Some? {
        assert i > 0;
        RunOfRest(u, s, n, i, j);
      }
    }
    if speller(s[..n]).Some? && Spellable(u, speller, s[n..]) {
      forall i, j | MaximalRun(u, s, i, j) ensures speller(s[i..j]).Some? {
        RunsApart(u, s, n, i, j);
        if i > n {
          RunInRest(u, s, n, i, j);
        }
      }
    }
  }

  lemma NoRunSpellable(u: CharTable, speller: string -> Option<string>, s: string)
    requires s != "" && !u.digit(s[0])
    ensures Spellable(u, speller, s) <==> Spellable(u, speller, s[1..])
  {
    if Spellable(u, speller, s) {
      forall i, j | MaximalRun(u, s[1..], i, j) ensures speller(s[1..][i..j]).Some? {
        RunOfRest(u, s, 1, i, j);
      }
    }
    if Spellable(u, speller, s[1..]) {
      forall i, j | MaximalRun(u, s, i, j) ensures speller(s[i..j]).Some? {
        assert i > 0;
        RunInRest(u, s, 1, i, j);
      }
    }
  }

  /** A blank-free stretch of text. */
  ghost predicate Solid(u: CharTable, s: string) {
    forall c :: c in s ==> !u.space(c)
  }

  lemma {:induction false} KeepAllWhen<T>(p: T -> bool, xs: seq<T>)
    requires forall x :: x in xs ==> p(x)
    ensures Filter(p, xs) == xs
  {
    if xs != [] {
      KeepAllWhen(p, xs[1..]);
    }
  }

  lemma {:induction false} SplitSolid(u: CharTable, token: string, s: string)
    requires Solid(u, s)
    ensures SplitFrom(u, token, s) == Emit(token + s)
    decreases |s|
  {
    if s == "" {
      assert token + s == token;
    } else {
      SplitSolid(u, token + [s[0]], s[1..]);
      assert token + [s[0]] + s[1..] == token + s;
    }
  }

  lemma {:induction false} ReplaceSolid(u: CharTable, speller: string -> string, s: string)
    requires Sane(u) && SpellsWords(u, speller) && Solid(u, s)
    ensures Solid(u, Replace(u, speller, s))
    ensures Keep(u, Replace(u, speller, s)) == "" <==> Keep(u, s) == ""
    decreases |s|
  {
    if s == "" {
    } else if u.digit(s[0]) {
      var n := DigitRun(u, s);
      var spelled := speller(s[..n]);
      assert AllDigits(u, s[..n]);
      KeepAllWhen(c => !u.space(c), spelled);
      ReplaceSolid(u, speller, s[n..]);
      FilterAppend(c => u.wordChar(c) || u.space(c), spelled, Replace(u, speller, s[n..]));
      KeepAllWhen(c => u.wordChar(c) || u.space(c), spelled);
      assert u.wordChar(s[0]);
    } else {
      ReplaceSolid(u, speller, s[1..]);
      FilterAppend(c => u.wordChar(c) || u.space(c), [s[0]], Replace(u, speller, s[1..]));
      FilterAppend(c => u.wordChar(c) || u.space(c), [s[0]], s[1..]);
      assert s == [s[0]] + s[1..];
    }
  }

  lemma ReplaceCons(u: CharTable, speller: string -> string, c: char, s: string)
    requires !u.digit(c)
    ensures Replace(u, speller, [c] + s) == [c] + Replace(u, speller, s)
  {
    assert ([c] + s)[1..] == s;
  }

  lemma ReplaceRun(u: CharTable, speller: string -> string, run: string, s: string)
    requires run != "" && AllDigits(u, run) && (s == "" || !u.digit(s[0]))
    ensures Replace(u, speller, run + s) == NoSpace(u, speller(run)) + Replace(u, speller, s)
  {
    DigitRunAppend(u, run, s);
    DigitRunOfRun(u, run);
    assert (run + s)[..|run|] == run && (run + s)[|run|..] == s;
  }

  lemma {:induction false} DigitRunOfRun(u: CharTable, run: string)
    requires AllDigits(u, run)
    ensures DigitRun(u, run) == |run|
  {
    if run != "" {
      DigitRunOfRun(u, run[1..]);
    }
  }

  /** Expansion works piecewise as long as no digit run is cut. */
  lemma {:induction false} ReplaceAppend(u: CharTable, speller: string -> string, a: string, b: string)
    requires b == "" || !u.digit(b[0])
    ensures Replace(u, speller, a + b) == Replace(u, speller, a) + Replace(u, speller, b)
    decreases |a|
  {
    if a == "" {
      assert a + b == b;
    } else if u.digit(a[0]) {
      hide Replace;
      var n := DigitRun(u, a);
      var run, rest := a[..n], a[n..];
      ReplaceAppend(u, speller, rest, b);
      ReplaceRun(u, speller, run, rest);
      ReplaceRun(u, speller, run, rest + b);
      assert a == run + rest;
      Associative(run, rest, b);
      Associative(NoSpace(u, speller(run)), Replace(u, speller, rest), Replace(u, speller, b));
    } else {
      hide Replace;
      var c, rest := a[0], a[1..];
      ReplaceAppend(u, speller, rest, b);
      ReplaceCons(u, speller, c, rest);
      ReplaceCons(u, speller, c, rest + b);
      assert a == [c] + rest;
      Associative([c], rest, b);
      Associative([c], Replace(u, speller, rest), Replace(u, speller, b));
    }
  }

  lemma {:induction false} DigitRunAppend(u: CharTable, a: string, b: string)
    requires b == "" || !u.digit(b[0])
    ensures DigitRun(u, a + b) == DigitRun(u, a)
  {
    if a == "" {
      assert a + b == b;
    } else {
      assert (a + b)[0] == a[0] && (a + b)[1..] == a[1..] + b;
      DigitRunAppend(u, a[1..], b);
    }
  }

  /** The first whitespace character of a text, or its length. */
  function SolidPrefix(u: CharTable, s: string): (n: nat)
    ensures n <= |s|
    ensures Solid(u, s[..n])
    ensures n < |s| ==> u.space(s[n])
  {
    if s == "" || u.space(s[0]) then 0
    else
      var n := SolidPrefix(u, s[1..]);
      assert s[..1 + n] == [s[0]] + s[1..][..n];
      1 + n
  }

  /** Punctuation-only pieces vanish; the others keep their word characters. */
  function KeepPieces(u: CharTable, pieces: seq<string>): seq<string> {
    if pieces == [] then [] else Emit(Keep(u, pieces[0])) + KeepPieces(u, pieces[1..])
  }

  lemma {:induction false} KeepPiecesAppend(u: CharTable, a: seq<string>, b: seq<string>)
    ensures KeepPieces(u, a + b) == KeepPieces(u, a) + KeepPieces(u, b)
  {
    if a == [] {
      assert a + b == b;
    } else {
      assert (a + b)[0] == a[0] && (a + b)[1..] == a[1..] + b;
      KeepPiecesAppend(u, a[1..], b);
    }
  }

  lemma KeepSolid(u: CharTable, s: string)
    requires Solid(u, s)
    ensures Solid(u, Keep(u, s)) && Tokens(u, s) == Emit(Keep(u, s))
  {
    FilterMembers(c => u.wordChar(c) || u.space(c), s);
    SplitSolid(u, "", Keep(u, s));
    assert "" + Keep(u, s) == Keep(u, s);
  }

  /** A text's pieces: the stretch before its first whitespace, then those of the rest. */
  lemma SplitFirstPiece(u: CharTable, s: string)
    ensures var n := SolidPrefix(u, s);
      Split(u, s) == Emit(s[..n]) + if n == |s| then [] else Split(u, s[n + 1..])
  {
    var n := SolidPrefix(u, s);
    assert s == s[..n] + s[n..];
    SplitAtSpace(u, s[..n], s[n..]);
    SplitSolid(u, "", s[..n]);
    assert "" + s[..n] == s[..n];
    if n < |s| {
      SplitLeadingSpace(u, s[n..]);
      assert s[n..][1..] == s[n + 1..];
    }
  }

  lemma TokensFirstPiece(u: CharTable, s: string)
    ensures var n := SolidPrefix(u, s);
      Tokens(u, s) == Emit(Keep(u, s[..n])) + if n == |s| then [] else Tokens(u, s[n + 1..])
  {
    var n := SolidPrefix(u, s);
    assert s == s[..n] + s[n..];
    TokensAtSpace(u, s[..n], s[n..]);
    KeepSolid(u, s[..n]);
    if n < |s| {
      TokensAfterSpace(u, s[n..]);
      assert s[n..][1..] == s[n + 1..];
    }
  }

  lemma ReplacedTokensFirstPiece(u: CharTable, speller: string -> string, s: string)
    requires Sane(u) && SpellsWords(u, speller)
    ensures var n := SolidPrefix(u, s);
      Tokens(u, Replace(u, speller, s))
      == Emit(Keep(u, Replace(u, speller, s[..n])))
       + if n == |s| then [] else Tokens(u, Replace(u, speller, s[n + 1..]))
  {
    var n := SolidPrefix(u, s);
    var a, b := s[..n], s[n..];
    assert s == a + b;
    ReplaceAppend(u, speller, a, b);
    ReplaceSolid(u, speller, a);
    KeepSolid(u, Replace(u, speller, a));
    if n < |s| {
      assert Replace(u, speller, b) == [b[0]] + Replace(u, speller, b[1..]);
      TokensAfterSpace(u, Replace(u, speller, b));
      assert b[1..] == s[n + 1..];
      assert Replace(u, speller, b)[1..] == Replace(u, speller, b[1..]);
    }
    TokensAtSpace(u, Replace(u, speller, a), Replace(u, speller, b));
  }

  /** The pieces with their numbers spelled out. */
  function Replaced(u: CharTable, speller: string -> string, pieces: seq<string>): seq<string> {
    Map(p => Replace(u, speller, p), pieces)
  }

  /** Every whitespace-separated piece of the text yields at most one token before and after
      number expansion, from the same piece: token by token the two lists correspond. */
  lemma {:induction false} TokensByPiece(u: CharTable, speller: string -> string, text: string)
    requires Sane(u) && SpellsWords(u, speller)
    ensures Tokens(u, text) == KeepPieces(u, Split(u, text))
    ensures Tokens(u, Replace(u, speller, text)) == KeepPieces(u, Replaced(u, speller, Split(u, text)))
    decreases |text|
  {
    hide Replace, Replaced, Split, Tokens, KeepPieces, Keep, Emit;
    var n := SolidPrefix(u, text);
    var rest := if n == |text| then [] else Split(u, text[n + 1..]);
    SplitFirstPiece(u, text);
    TokensFirstPiece(u, text);
    ReplacedTokensFirstPiece(u, speller, text);
    NoPieces(u, speller);
    if n < |text| {
      TokensByPiece(u, speller, text[n + 1..]);
    }
    FirstPiece(u, speller, text[..n], rest);
  }

  lemma NoPieces(u: CharTable, speller: string -> string)
    ensures KeepPieces(u, []) == [] && KeepPieces(u, Replaced(u, speller, [])) == []
  {
  }

  lemma FirstPiece(u: CharTable, speller: string -> string, piece: string, rest: seq<string>)
    ensures KeepPieces(u, Emit(piece) + rest) == Emit(Keep(u, piece)) + KeepPieces(u, rest)
    ensures KeepPieces(u, Replaced(u, speller, Emit(piece) + rest))
         == Emit(Keep(u, Replace(u, speller, piece))) + KeepPieces(u, Replaced(u, speller, rest))
  {
    KeepPiecesAppend(u, Emit(piece), rest);
    assert Replaced(u, speller, Emit(piece) + rest) == Replaced(u, speller, Emit(piece)) + Replaced(u, speller, rest);
    KeepPiecesAppend(u, Replaced(u, speller, Emit(piece)), Replaced(u, speller, rest));
    if piece != "" {
      KeepPiecesOfOne(u, piece);
      KeepPiecesOfOne(u, Replace(u, speller, piece));
      assert Replaced(u, speller, [piece]) == [Replace(u, speller, piece)];
    }
  }

  lemma KeepPiecesOfOne(u: CharTable, piece: string)
    ensures KeepPieces(u, [piece]) == Emit(Keep(u, piece))
  {
    assert [piece][1..] == [];
  }

  lemma {:induction false} KeepPiecesCount(u: CharTable, speller: string -> string, pieces: seq<string>)
    requires Sane(u) && SpellsWords(u, speller)
    requires forall p :: p in pieces ==> Solid(u, p)
    ensures |KeepPieces(u, Replaced(u, speller, pieces))| == |KeepPieces(u, pieces)|
  {
    if pieces != [] {
      ReplaceSolid(u, speller, pieces[0]);
      KeepPiecesCount(u, speller, pieces[1..]);
      assert Replaced(u, speller, pieces)[1..] == Replaced(u, speller, pieces[1..]);
    }
  }

  /** A speller that raises on some digits and makes words of the others. */
  ghost predicate SpellsWordsIfAny(u: CharTable, speller: string -> Option<string>) {
    forall d: string :: d != "" && AllDigits(u, d) && speller(d).Some? ==>
      speller(d).value != "" && forall c :: c in speller(d).value ==> u.wordChar(c)
  }

  /** Number expansion never changes the token count, whatever the language: the aligner sees as many tokens
      as are counted, exactly unless the speller raises on a digit run of the text. */
  lemma ExpansionKeepsCount(u: CharTable, speller: Option<string -> Option<string>>, text: string)
    requires Sane(u) && (speller.Some? ==> SpellsWordsIfAny(u, speller.value))
    ensures NormalizedTokens(u, speller, text).Some? <==> speller.None? || Spellable(u, speller.value, text)
    ensures NormalizedTokens(u, speller, text).Some? ==> |NormalizedTokens(u, speller, text).value| == AlignableTokens(u, text)
  {
    hide Expand, Replace, Spellable, Tokens, Split, KeepPieces;
    if speller.Some? {
      var words := OrDigits(speller.value);
      ExpandsIff(u, speller.value, text);
      assert SpellsWords(u, words);
      TokensByPiece(u, words, text);
      SplitTokens(u, "", text);
      PiecesAreSolid(u, text);
      KeepPiecesCount(u, words, Split(u, text));
    }
  }

  lemma PiecesAreSolid(u: CharTable, text: string)
    ensures forall p :: p in Split(u, text) ==> Solid(u, p)
  {
    SplitTokens(u, "", text);
  }
}
