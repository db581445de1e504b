/** src/vemsa/pipeline/realign.py, distribute_words: how a flat list of aligned words is handed back to the
    segments it was aligned for. Each listed segment takes as many words as its text has tokens, in
    list order. Handing back over two lists, one after the other, is handing back over each of them
    with its own share of the words, which is why slicing by window and then by segment may be done
    in one go; and the words a segment is handed stand, token by token, for its own text. */
module HandBack {
  import opened Base
  import opened Models
  import opened Text
  import opened Normalize
  import opened Windows

  datatype AlignError = NoAlignableText | NoWords | CountMismatch | GroupMismatch

  /** Each listed segment takes as many words as its text has tokens, in list order. */
  function HandedBack(u: CharTable, segments: seq<Segment>, order: seq<int>, words: seq<Word>): map<int, seq<Word>>
    requires Within(segments, order) && TotalTokens(u, segments, order) <= |words|
  {
    if order == [] then map[]
    else
      var n := |order| - 1;
      assert order == order[..n] + [order[n]];
      HandedBack(u, segments, order[..n], words)
        [order[n] := words[TotalTokens(u, segments, order[..n])..TotalTokens(u, segments, order)]]
  }

  lemma HandedBackSnoc(u: CharTable, segments: seq<Segment>, order: seq<int>, i: int, words: seq<Word>)
    requires Within(segments, order) && 0 <= i < |segments|
    requires TotalTokens(u, segments, order) + AlignableTokens(u, segments[i].text) <= |words|
    ensures TotalTokens(u, segments, order + [i])
         == TotalTokens(u, segments, order) + AlignableTokens(u, segments[i].text)
    ensures HandedBack(u, segments, order + [i], words)
         == HandedBack(u, segments, order, words)
              [i := words[TotalTokens(u, segments, order)..TotalTokens(u, segments, order + [i])]]
  {
    assert (order + [i])[..|order|] == order;
  }

  lemma {:induction false} HandedBackAppend(u: CharTable, segments: seq<Segment>, a: seq<int>, b: seq<int>, words: seq<Word>)
    requires Within(segments, a) && Within(segments, b)
    requires TotalTokens(u, segments, a) + TotalTokens(u, segments, b) <= |words|
    ensures TotalTokens(u, segments, a + b) == TotalTokens(u, segments, a) + TotalTokens(u, segments, b)
    ensures HandedBack(u, segments, a + b, words)
         == HandedBack(u, segments, a, words) + HandedBack(u, segments, b, words[TotalTokens(u, segments, a)..])
    decreases |b|, 0
  {
    if b == [] {
      assert a + b == a;
    } else {
      var c, i := b[..|b| - 1], b[|b| - 1];
      assert b == c + [i];
      HandedBackStep(u, segments, a, c, i, words);
    }
  }

  lemma {:induction false} HandedBackStep(u: CharTable, segments: seq<Segment>, a: seq<int>, c: seq<int>, i: int, words: seq<Word>)
    requires Within(segments, a) && Within(segments, c) && 0 <= i < |segments|
    requires TotalTokens(u, segments, a) + TotalTokens(u, segments, c + [i]) <= |words|
    ensures TotalTokens(u, segments, a + (c + [i])) == TotalTokens(u, segments, a) + TotalTokens(u, segments, c + [i])
    ensures HandedBack(u, segments, a + (c + [i]), words)
         == HandedBack(u, segments, a, words) + HandedBack(u, segments, c + [i], words[TotalTokens(u, segments, a)..])
    decreases |c|, 1
  {
    hide HandedBack, AlignableTokens;
    assert (c + [i])[..|c|] == c;
    HandedBackAppend(u, segments, a, c, words);
    var skip := TotalTokens(u, segments, a);
    HandedBackSnoc(u, segments, c, i, words[skip..]);
    HandedBackSnoc(u, segments, a + c, i, words);
    assert a + (c + [i]) == (a + c) + [i];
    assert words[skip..][TotalTokens(u, segments, c)..TotalTokens(u, segments, c + [i])]
        == words[skip + TotalTokens(u, segments, c)..skip + TotalTokens(u, segments, c + [i])];
  }

  lemma {:induction false} HandedBackPrefix(u: CharTable, segments: seq<Segment>, order: seq<int>, words: seq<Word>, n: nat)
    requires Within(segments, order) && TotalTokens(u, segments, order) <= n <= |words|
    ensures HandedBack(u, segments, order, words[..n]) == HandedBack(u, segments, order, words)
    decreases |order|
  {
    if order != [] {
      var m := |order| - 1;
      HandedBackPrefix(u, segments, order[..m], words, n);
      var from, to := TotalTokens(u, segments, order[..m]), TotalTokens(u, segments, order);
      assert words[..n][from..to] == words[from..to];
    }
  }

  lemma NothingHandedBack(u: CharTable, segments: seq<Segment>, words: seq<Word>)
    ensures TotalTokens(u, segments, []) == 0 && HandedBack(u, segments, [], words) == map[]
  {
  }

  lemma OneHandedBack(u: CharTable, segments: seq<Segment>, i: int, words: seq<Word>)
    requires 0 <= i < |segments|
    ensures TotalTokens(u, segments, [i]) == |words| ==> HandedBack(u, segments, [i], words) == map[i := words]
  {
    NothingHandedBack(u, segments, words);
    assert [i][..0] == [];
    assert words[0..|words|] == words;
  }

  lemma TotalTokensNext(u: CharTable, segments: seq<Segment>, order: seq<int>, k: int)
    requires Within(segments, order) && 0 <= k < |order|
    ensures TotalTokens(u, segments, order[..k + 1])
         == TotalTokens(u, segments, order[..k]) + AlignableTokens(u, segments[order[k]].text)
         <= TotalTokens(u, segments, order)
  {
    assert order[..k + 1][..k] == order[..k];
    assert order == order[..k + 1] + order[k + 1..];
    TotalTokensAppend(u, segments, order[..k + 1], order[k + 1..]);
  }

  lemma TokensOfBoth(u: CharTable, segments: seq<Segment>, a: seq<int>, b: seq<int>)
    requires Within(segments, a) && Within(segments, b)
    ensures Flatten(Map(t => Tokens(u, t), Texts(segments, a + b)))
         == Flatten(Map(t => Tokens(u, t), Texts(segments, a))) + Flatten(Map(t => Tokens(u, t), Texts(segments, b)))
  {
    hide Flatten, Tokens;
    var tokens := t => Tokens(u, t);
    assert Map(tokens, Texts(segments, a + b)) == Map(tokens, Texts(segments, a)) + Map(tokens, Texts(segments, b));
    FlattenAppend(Map(tokens, Texts(segments, a)), Map(tokens, Texts(segments, b)));
  }

  lemma {:induction false} HandedBackTokens(u: CharTable, segments: seq<Segment>, order: seq<int>, words: seq<Word>, token: Word -> string)
    requires Within(segments, order) && Distinct(order)
    requires TotalTokens(u, segments, order) <= |words|
    requires Map(token, words[..TotalTokens(u, segments, order)]) == Flatten(Map(t => Tokens(u, t), Texts(segments, order)))
    ensures forall i :: i in order ==>
      && i in HandedBack(u, segments, order, words)
      && Map(token, HandedBack(u, segments, order, words)[i]) == Tokens(u, segments[i].text)
    decreases |order|
  {
    if order != [] {
      var n := |order| - 1;
      var before, total := TotalTokens(u, segments, order[..n]), TotalTokens(u, segments, order);
      var mine := Tokens(u, segments[order[n]].text);
      LastTokens(u, segments, order);
      SliceTokens(words, before, total, token);
      HandedBackTokens(u, segments, order[..n], words, token);
      hide Map, Flatten, Texts, Tokens, TotalTokens, AlignableTokens;
      assert Map(token, words[before..total]) == mine;
    }
  }

  lemma SliceTokens(words: seq<Word>, from: int, to: int, token: Word -> string)
    requires 0 <= from <= to <= |words|
    ensures Map(token, words[..from]) == Map(token, words[..to])[..from]
    ensures Map(token, words[from..to]) == Map(token, words[..to])[from..]
  {
    assert words[..to][0..from] == words[..from];
    assert words[..to][from..to] == words[from..to];
    MapSlice(token, words[..to], 0, from);
    MapSlice(token, words[..to], from, to);
  }

  lemma LastTokens(u: CharTable, segments: seq<Segment>, order: seq<int>)
    requires order != [] && Within(segments, order)
    ensures var n := |order| - 1;
      var earlier := Flatten(Map(t => Tokens(u, t), Texts(segments, order[..n])));
      && |earlier| == TotalTokens(u, segments, order[..n])
      && Flatten(Map(t => Tokens(u, t), Texts(segments, order))) == earlier + Tokens(u, segments[order[n]].text)
  {
    hide Flatten, Tokens;
    var n := |order| - 1;
    assert order == order[..n] + [order[n]];
    TokensOfBoth(u, segments, order[..n], [order[n]]);
    FlattenTokensCount(u, segments, order[..n]);
    assert Map(t => Tokens(u, t), Texts(segments, [order[n]])) == [Tokens(u, segments[order[n]].text)];
    FlattenSingle(Tokens(u, segments[order[n]].text));
  }

  lemma {:induction false} HandedBackFrom(u: CharTable, segments: seq<Segment>, order: seq<int>, words: seq<Word>)
    requires Within(segments, order) && TotalTokens(u, segments, order) <= |words|
    ensures var own := HandedBack(u, segments, order, words);
      && (forall i :: i in own <==> i in order)
      && (forall i, w :: i in own && w in own[i] ==> w in words)
    decreases |order|
  {
    if order != [] {
      var n := |order| - 1;
      assert order == order[..n] + [order[n]];
      HandedBackFrom(u, segments, order[..n], words);
    }
  }

  ghost predicate InWindow(window: Segment, words: seq<Word>) {
    forall w :: w in words ==> window.start <= w.start <= window.end
  }

  lemma HandedBackApart(u: CharTable, segments: seq<Segment>, a: seq<int>, b: seq<int>, mine: seq<Word>, rest: seq<Word>)
    requires Within(segments, a) && Within(segments, b)
    requires TotalTokens(u, segments, a) == |mine| && TotalTokens(u, segments, b) == |rest|
    ensures TotalTokens(u, segments, a + b) == |mine + rest|
    ensures HandedBack(u, segments, a + b, mine + rest)
         == HandedBack(u, segments, a, mine) + HandedBack(u, segments, b, rest)
  {
    hide TotalTokens, HandedBack;
    var words := mine + rest;
    HandedBackAppend(u, segments, a, b, words);
    HandedBackPrefix(u, segments, a, words, |mine|);
    assert words[..|mine|] == mine && words[|mine|..] == rest;
  }
}
