/**
  The older edge n-gram tokenizer: the same byte-budget cut, but grams are
  counted in characters, every token sits at position 0, and the loop runs
  over `minGram..maxGram` skipping lengths longer than the word.
*/
module EdgeNgramLegacy {
  import opened Wrappers
  import opened Text
  import opened Tokens
  import EdgeNgram

  /** Lengths `n..maxGram` of one word, keeping those the word can supply. */
  function LegacyGrams(word: string, n: nat, maxGram: nat): (r: seq<Token>)
    decreases if n <= maxGram then maxGram + 1 - n else 0
    ensures forall i :: 0 <= i < |r| ==>
              && r[i].position == 0 && r[i].offsetFrom == 0 && r[i].positionLength == 1
              && n <= r[i].offsetTo <= maxGram && r[i].offsetTo <= |word|
              && r[i].text == word[..r[i].offsetTo]
  {
    if n > maxGram then []
    else if n <= |word| then [Token(0, n, 0, word[..n], 1)] + LegacyGrams(word, n + 1, maxGram)
    else LegacyGrams(word, n + 1, maxGram)
  }

  /** Once the length passes the word or `maxGram`, nothing more is emitted. */
  lemma {:induction false} LegacyGramsEmpty(word: string, n: nat, maxGram: nat)
    requires n > maxGram || n > |word|
    ensures LegacyGrams(word, n, maxGram) == []
    decreases if n <= maxGram then maxGram + 1 - n else 0
  {
    if n <= maxGram {
      LegacyGramsEmpty(word, n + 1, maxGram);
    }
  }

  function LegacyTokenizeWords(t: EdgeNgram.EdgeNgramTokenizer, words: seq<string>): (r: seq<Token>)
    decreases |words|
    ensures forall i :: 0 <= i < |r| ==>
              && r[i].position == 0 && r[i].offsetFrom == 0 && r[i].positionLength == 1
              && t.minGram <= r[i].offsetTo <= t.maxGram && |r[i].text| == r[i].offsetTo
  {
    if |words| == 0 then []
    else LegacyGrams(words[0], t.minGram, t.maxGram) + LegacyTokenizeWords(t, words[1..])
  }

  /**
    The older `token_stream`, as its token list. Only the byte-budget cut
    can panic; every token is a character prefix of length within the gram
    bounds, at position 0.
  */
  function LegacyTokenize(t: EdgeNgram.EdgeNgramTokenizer, text: string): (r: Result<seq<Token>, SliceError>)
    ensures r.Err? <==> TruncateBytes(text, t.limit).Err?
    ensures r.Ok? ==> forall i :: 0 <= i < |r.value| ==>
              && r.value[i].position == 0 && r.value[i].offsetFrom == 0 && r.value[i].positionLength == 1
              && t.minGram <= r.value[i].offsetTo <= t.maxGram && |r.value[i].text| == r.value[i].offsetTo
  {
    match TruncateBytes(text, t.limit)
    case Err(e) => Err(e)
    case Ok(kept) => Ok(LegacyTokenizeWords(t, SplitWhitespace(kept)))
  }

  function LegacyTokenStream(t: EdgeNgram.EdgeNgramTokenizer, text: string): (r: Result<VecTokenStream, SliceError>)
    ensures r.Ok? ==> r.value.next == 0 && LegacyTokenize(t, text) == Ok(r.value.tokens)
    ensures r.Err? <==> LegacyTokenize(t, text).Err?
  {
    match LegacyTokenize(t, text)
    case Err(e) => Err(e)
    case Ok(tokens) => Ok(Fresh(tokens))
  }

  /** Sets every token's position to 0. */
  function AtPositionZero(ts: seq<Token>): (r: seq<Token>)
    ensures |r| == |ts|
    ensures forall i :: 0 <= i < |ts| ==> r[i] == ts[i].(position := 0)
  {
    seq(|ts|, i requires 0 <= i < |ts| => ts[i].(position := 0))
  }

  lemma {:induction false} LegacyGramsMatchCharGrams(word: string, p: nat, n: nat, maxGram: nat)
    ensures LegacyGrams(word, n, maxGram) == AtPositionZero(EdgeNgram.CharGrams(word, p, n, Min(maxGram, |word|)))
    decreases if n <= maxGram then maxGram + 1 - n else 0
  {
    var hi := Min(maxGram, |word|);
    if n > hi {
      LegacyGramsEmpty(word, n, maxGram);
    } else {
      LegacyGramsMatchCharGrams(word, p, n + 1, maxGram);
      var cg := EdgeNgram.CharGrams(word, p, n, hi);
      assert cg == [Token(0, n, p, word[..n], 1)] + EdgeNgram.CharGrams(word, p, n + 1, hi);
      assert AtPositionZero(cg) == [Token(0, n, 0, word[..n], 1)] + AtPositionZero(EdgeNgram.CharGrams(word, p, n + 1, hi));
    }
  }

  lemma {:induction false} LegacyWordsMatch(t: EdgeNgram.EdgeNgramTokenizer, words: seq<string>, start: nat)
    ensures LegacyTokenizeWords(t, words) == AtPositionZero(EdgeNgram.CharTokens(t, words, start))
    decreases |words|
  {
    if |words| > 0 {
      var w := words[0];
      LegacyWordsMatch(t, words[1..], start + 1);
      LegacyGramsMatchCharGrams(w, start, t.minGram, t.maxGram);
      if |w| < t.minGram {
        LegacyGramsEmpty(w, t.minGram, t.maxGram);
      }
      var first := if |w| < t.minGram then [] else EdgeNgram.CharGrams(w, start, t.minGram, Min(t.maxGram, |w|));
      var rest := EdgeNgram.CharTokens(t, words[1..], start + 1);
      assert AtPositionZero(first + rest) == AtPositionZero(first) + AtPositionZero(rest);
    }
  }

  /**
    On ASCII input the two tokenizers emit the same grams in the same order;
    the older one differs only in putting every token at position 0.
  */
  lemma LegacyAgreesUpToPosition(t: EdgeNgram.EdgeNgramTokenizer, text: string)
    requires IsAscii(text)
    ensures EdgeNgram.Tokenize(t, text).Ok? && LegacyTokenize(t, text).Ok?
    ensures LegacyTokenize(t, text).value == AtPositionZero(EdgeNgram.Tokenize(t, text).value)
  {
    EdgeNgram.AsciiMatchesReference(t, text);
    AsciiTruncate(text, t.limit);
    LegacyWordsMatch(t, SplitWhitespace(text[..Min(|text|, t.limit)]), 0);
  }
}
