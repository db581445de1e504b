/** src/vemsa/pipeline/normalize.py, alignable_tokens: what the counted tokens are. */
module Words {
  import opened Base
  import opened Text
  import opened Normalize

  /** One for each word character that no other precedes since the last whitespace. */
  function WordStarts(u: CharTable, text: string, begun: bool): nat {
    if text == "" then 0
    else if u.space(text[0]) then WordStarts(u, text[1..], false)
    else if u.wordChar(text[0]) && !begun then 1 + WordStarts(u, text[1..], true)
    else WordStarts(u, text[1..], begun)
  }

  function WordChars(u: CharTable, text: string): string {
    Filter(u.wordChar, text)
  }

  lemma KeepCons(u: CharTable, c: char, rest: string)
    ensures Keep(u, [c] + rest) == if u.wordChar(c) || u.space(c) then [c] + Keep(u, rest) else Keep(u, rest)
  {
    FilterCons(x => u.wordChar(x) || u.space(x), c, rest);
    assert [] + Keep(u, rest) == Keep(u, rest);
  }

  lemma {:induction false} CountFrom(u: CharTable, token: string, text: string)
    requires Sane(u)
    ensures |SplitFrom(u, token, Keep(u, text))| == (if token == "" then 0 else 1) + WordStarts(u, text, token != "")
    decreases |text|
  {
    if text == "" {
      assert Keep(u, "") == "";
    } else {
      var c, rest := text[0], text[1..];
      var kept := Keep(u, rest);
      assert text == [c] + rest;
      KeepCons(u, c, rest);
      assert ([c] + kept)[1..] == kept;
      CountFrom(u, if u.space(c) then "" else if u.wordChar(c) then token + [c] else token, rest);
    }
  }

  lemma {:induction false} KeepThenDrop(u: CharTable, text: string)
    requires Sane(u)
    ensures NoSpace(u, Keep(u, text)) == WordChars(u, text)
  {
    if text == "" {
      assert Keep(u, "") == "";
    } else {
      var c, rest := text[0], text[1..];
      var kept := Keep(u, rest);
      assert text == [c] + rest;
      KeepThenDrop(u, rest);
      KeepCons(u, c, rest);
      NoSpaceCons(u, c, kept);
      NoSpaceCons(u, c, rest);
    }
  }

  lemma NoSpaceCons(u: CharTable, c: char, rest: string)
    ensures NoSpace(u, [c] + rest) == if u.space(c) then NoSpace(u, rest) else [c] + NoSpace(u, rest)
    ensures WordChars(u, [c] + rest) == if u.wordChar(c) then [c] + WordChars(u, rest) else WordChars(u, rest)
  {
    FilterCons(x => !u.space(x), c, rest);
    FilterCons(u.wordChar, c, rest);
    assert [] + NoSpace(u, rest) == NoSpace(u, rest) && [] + WordChars(u, rest) == WordChars(u, rest);
  }

  /** A text is aligned by non-empty tokens of word characters only, holding all of the text's in order, and it has
      as many as pieces with a word character: a piece of punctuation alone counts for nothing. */
  lemma TokensAreWords(u: CharTable, text: string)
    requires Sane(u)
    ensures forall t :: t in Tokens(u, text) ==> t != "" && forall c :: c in t ==> u.wordChar(c)
    ensures Flatten(Tokens(u, text)) == WordChars(u, text)
    ensures AlignableTokens(u, text) == WordStarts(u, text, false)
  {
    hide SplitFrom, Filter, WordStarts, Flatten, Keep;
    CountFrom(u, "", text);
    SplitTokens(u, "", Keep(u, text));
    assert "" + NoSpace(u, Keep(u, text)) == NoSpace(u, Keep(u, text));
    KeepThenDrop(u, text);
    FilterMembers(u.wordChar, text);
    forall t, c | t in Tokens(u, text) && c in t ensures u.wordChar(c) {
      InFlatten(Tokens(u, text), t, c);
    }
  }

  lemma {:induction false} InFlatten<T>(xss: seq<seq<T>>, xs: seq<T>, x: T)
    requires xs in xss && x in xs
    ensures x in Flatten(xss)
  {
    if xss[0] != xs {
      InFlatten(xss[1..], xs, x);
    }
  }
}
