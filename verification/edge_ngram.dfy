/**
  The edge n-gram tokenizer: the input is cut to a byte budget, split on
  whitespace, and every word at least `minGram` bytes long yields its
  leading byte prefixes of `minGram` up to `maxGram` bytes, positioned at
  the word's index. Byte offsets that fall inside a multi-byte character
  make Rust's slicing panic; the model returns that panic as an error.
*/
module EdgeNgram {
  import opened Wrappers
  import opened Text
  import opened Tokens

  datatype EdgeNgramTokenizer = EdgeNgramTokenizer(minGram: nat, maxGram: nat, limit: nat)

  /** The n-grams of lengths `n..hi` (bytes) of one word, shortest first. */
  function Grams(word: string, position: nat, n: nat, hi: nat): (r: Result<seq<Token>, SliceError>)
    decreases if n <= hi then hi + 1 - n else 0
    ensures r.Ok? ==> |r.value| == if n <= hi then hi + 1 - n else 0
    ensures r.Ok? ==> forall i :: 0 <= i < |r.value| ==>
              && r.value[i] == Token(0, n + i, position, r.value[i].text, 1)
              && ByteLen(r.value[i].text) == n + i
              && r.value[i].text <= word
    ensures r.Err? <==> exists m :: n <= m <= hi && CharsInBytes(word, m).None?
  {
    if n > hi then Ok([])
    else
      match CharsInBytes(word, n)
      case None =>
        assert n <= n <= hi && CharsInBytes(word, n).None?;
        Err(NotCharBoundary(n))
      case Some(k) =>
        match Grams(word, position, n + 1, hi)
        case Err(e) =>
          assert exists m :: n + 1 <= m <= hi && CharsInBytes(word, m).None?;
          Err(e)
        case Ok(rest) => Ok([Token(0, n, position, word[..k], 1)] + rest)
  }

  /** The tokens of the word at index `position`: none when it is too short. */
  function WordTokens(t: EdgeNgramTokenizer, word: string, position: nat): (r: Result<seq<Token>, SliceError>)
    ensures ByteLen(word) < t.minGram ==> r == Ok([])
    ensures r.Ok? && ByteLen(word) >= t.minGram ==>
              |r.value| == if t.minGram <= t.maxGram then Min(t.maxGram, ByteLen(word)) + 1 - t.minGram else 0
    ensures r.Ok? ==> forall k :: 0 <= k < |r.value| ==> r.value[k].position == position
  {
    if ByteLen(word) < t.minGram then Ok([])
    else Grams(word, position, t.minGram, Min(t.maxGram, ByteLen(word)))
  }

  /** The shape every emitted token has, relative to the word list. */
  predicate WellPlaced(t: EdgeNgramTokenizer, words: seq<string>, start: nat, tok: Token) {
    && start <= tok.position < start + |words|
    && tok.offsetFrom == 0
    && tok.positionLength == 1
    && t.minGram <= tok.offsetTo <= t.maxGram
    && ByteLen(tok.text) == tok.offsetTo
    && tok.text <= words[tok.position - start]
  }

  predicate AllWellPlaced(t: EdgeNgramTokenizer, words: seq<string>, start: nat, ts: seq<Token>) {
    forall i :: 0 <= i < |ts| ==> WellPlaced(t, words, start, ts[i])
  }

  predicate PositionsAscend(ts: seq<Token>) {
    forall i, j :: 0 <= i < j < |ts| ==> ts[i].position <= ts[j].position
  }

  /** One word's tokens followed by the later words' tokens keep the shape. */
  lemma JoinWords(t: EdgeNgramTokenizer, words: seq<string>, start: nat, first: seq<Token>, rest: seq<Token>)
    requires |words| > 0
    requires WordTokens(t, words[0], start) == Ok(first)
    requires AllWellPlaced(t, words[1..], start + 1, rest) && PositionsAscend(rest)
    ensures AllWellPlaced(t, words, start, first + rest) && PositionsAscend(first + rest)
  {
  }

  /** The tokens of `ts` at position `p`, in order. */
  function TokensAt(ts: seq<Token>, p: nat): (r: seq<Token>)
    decreases |ts|
    ensures |r| <= |ts|
    ensures forall k :: 0 <= k < |r| ==> r[k].position == p
  {
    if |ts| == 0 then []
    else (if ts[0].position == p then [ts[0]] else []) + TokensAt(ts[1..], p)
  }

  lemma {:induction false} TokensAtAppend(a: seq<Token>, b: seq<Token>, p: nat)
    ensures TokensAt(a + b, p) == TokensAt(a, p) + TokensAt(b, p)
    decreases |a|
  {
    if |a| > 0 {
      var head := if a[0].position == p then [a[0]] else [];
      assert (a + b)[0] == a[0] && (a + b)[1..] == a[1..] + b;
      assert TokensAt(a + b, p) == head + TokensAt(a[1..] + b, p);
      TokensAtAppend(a[1..], b, p);
      assert head + (TokensAt(a[1..], p) + TokensAt(b, p)) == (head + TokensAt(a[1..], p)) + TokensAt(b, p);
    } else {
      assert a + b == b;
    }
  }

  lemma {:induction false} TokensAtAllThere(ts: seq<Token>, p: nat)
    requires forall k :: 0 <= k < |ts| ==> ts[k].position == p
    ensures TokensAt(ts, p) == ts
    decreases |ts|
  {
    if |ts| > 0 {
      TokensAtAllThere(ts[1..], p);
      assert [ts[0]] + ts[1..] == ts;
    }
  }

  lemma {:induction false} TokensAtNoneThere(ts: seq<Token>, p: nat)
    requires forall k :: 0 <= k < |ts| ==> ts[k].position != p
    ensures TokensAt(ts, p) == []
    decreases |ts|
  {
    if |ts| > 0 {
      TokensAtNoneThere(ts[1..], p);
    }
  }

  /** No word's grams cut inside a character. */
  predicate WordsSlice(t: EdgeNgramTokenizer, words: seq<string>, start: nat) {
    forall i :: 0 <= i < |words| ==> WordTokens(t, words[i], start + i).Ok?
  }

  /** The tokens at each word's position are exactly that word's grams. */
  predicate ByWord(t: EdgeNgramTokenizer, words: seq<string>, start: nat, ts: seq<Token>) {
    forall i :: 0 <= i < |words| ==>
      WordTokens(t, words[i], start + i).Ok? && TokensAt(ts, start + i) == WordTokens(t, words[i], start + i).value
  }

  /** `e` is the error of the first word whose grams cut inside a character. */
  predicate FirstFailure(t: EdgeNgramTokenizer, words: seq<string>, start: nat, e: SliceError) {
    exists i :: 0 <= i < |words| && WordsSlice(t, words[..i], start) && WordTokens(t, words[i], start + i) == Err(e)
  }

  lemma WordsSliceCons(t: EdgeNgramTokenizer, words: seq<string>, start: nat)
    requires |words| > 0
    ensures WordsSlice(t, words, start) <==> WordTokens(t, words[0], start).Ok? && WordsSlice(t, words[1..], start + 1)
  {
    if WordTokens(t, words[0], start).Ok? && WordsSlice(t, words[1..], start + 1) {
      forall i | 0 <= i < |words|
        ensures WordTokens(t, words[i], start + i).Ok?
      {
        if i > 0 {
          assert words[i] == words[1..][i - 1];
        }
      }
    }
    if WordsSlice(t, words, start) {
      forall i | 0 <= i < |words| - 1
        ensures WordTokens(t, words[1..][i], start + 1 + i).Ok?
      {
        assert words[1..][i] == words[i + 1];
      }
    }
  }

  lemma FailureCons(t: EdgeNgramTokenizer, words: seq<string>, start: nat, e: SliceError)
    requires |words| > 0 && WordTokens(t, words[0], start).Ok?
    requires FirstFailure(t, words[1..], start + 1, e)
    ensures FirstFailure(t, words, start, e)
  {
    var i :| 0 <= i < |words| - 1 && WordsSlice(t, words[1..][..i], start + 1)
             && WordTokens(t, words[1..][i], start + 1 + i) == Err(e);
    assert words[..i + 1][1..] == words[1..][..i];
    WordsSliceCons(t, words[..i + 1], start);
    assert words[i + 1] == words[1..][i];
  }

  /** Tokens all at `p` followed by tokens all past `p`: each position keeps its own tokens. */
  lemma TokensAtJoin(first: seq<Token>, rest: seq<Token>, p: nat)
    requires forall k :: 0 <= k < |first| ==> first[k].position == p
    requires forall k :: 0 <= k < |rest| ==> rest[k].position > p
    ensures TokensAt(first + rest, p) == first
    ensures forall q: nat :: q > p ==> TokensAt(first + rest, q) == TokensAt(rest, q)
  {
    TokensAtAppend(first, rest, p);
    TokensAtAllThere(first, p);
    TokensAtNoneThere(rest, p);
    forall q: nat | q > p
      ensures TokensAt(first + rest, q) == TokensAt(rest, q)
    {
      TokensAtAppend(first, rest, q);
      TokensAtNoneThere(first, q);
    }
  }

  /** One word's tokens followed by the later words' tokens give every word its own grams. */
  lemma JoinWordContents(t: EdgeNgramTokenizer, words: seq<string>, start: nat, first: seq<Token>, rest: seq<Token>)
    requires |words| > 0
    requires WordTokens(t, words[0], start) == Ok(first)
    requires AllWellPlaced(t, words[1..], start + 1, rest) && ByWord(t, words[1..], start + 1, rest)
    ensures ByWord(t, words, start, first + rest)
  {
    forall k | 0 <= k < |rest|
      ensures rest[k].position > start
    {
      assert WellPlaced(t, words[1..], start + 1, rest[k]);
    }
    TokensAtJoin(first, rest, start);
    forall i | 0 < i < |words|
      ensures WordTokens(t, words[i], start + i).Ok?
      ensures TokensAt(first + rest, start + i) == WordTokens(t, words[i], start + i).value
    {
      assert words[i] == words[1..][i - 1];
      assert start + i == (start + 1) + (i - 1);
    }
  }

  /**
    The words numbered from `start`, each word's tokens in turn. It
    succeeds exactly when no word's grams cut inside a character; then the
    tokens at each word's position are that word's grams, and otherwise the
    error is the first failing word's.
  */
  function TokenizeWords(t: EdgeNgramTokenizer, words: seq<string>, start: nat): (r: Result<seq<Token>, SliceError>)
    decreases |words|
    ensures r.Ok? <==> WordsSlice(t, words, start)
    ensures r.Ok? ==> AllWellPlaced(t, words, start, r.value) && PositionsAscend(r.value)
    ensures r.Ok? ==> ByWord(t, words, start, r.value)
    ensures r.Err? ==> FirstFailure(t, words, start, r.error)
  {
    if |words| == 0 then Ok([])
    else
      WordsSliceCons(t, words, start);
      match WordTokens(t, words[0], start)
      case Err(e) =>
        assert words[..0] == [];
        assert FirstFailure(t, words, start, e);
        Err(e)
      case Ok(first) =>
        match TokenizeWords(t, words[1..], start + 1)
        case Err(e) =>
          FailureCons(t, words, start, e);
          Err(e)
        case Ok(rest) =>
          JoinWords(t, words, start, first, rest);
          JoinWordContents(t, words, start, first, rest);
          Ok(first + rest)
  }

  /**
    `EdgeNgramTokenizer::token_stream`, as the token list its stream holds.
    A truncation inside a character is its error. Otherwise, over the words
    of the truncated text numbered from 0, it succeeds exactly when no
    word's grams cut inside a character; every token is then a byte prefix,
    within the gram bounds, of the word at its position, positions never
    decrease, and the tokens at each word's position are exactly that
    word's grams.
  */
  function Tokenize(t: EdgeNgramTokenizer, text: string): (r: Result<seq<Token>, SliceError>)
    ensures TruncateBytes(text, t.limit).Err? ==> r == Err(TruncateBytes(text, t.limit).error)
    ensures TruncateBytes(text, t.limit).Ok? ==>
              var words := SplitWhitespace(TruncateBytes(text, t.limit).value);
              && (r.Ok? <==> WordsSlice(t, words, 0))
              && (r.Ok? ==> AllWellPlaced(t, words, 0, r.value) && PositionsAscend(r.value))
              && (r.Ok? ==> ByWord(t, words, 0, r.value))
              && (r.Err? ==> FirstFailure(t, words, 0, r.error))
  {
    match TruncateBytes(text, t.limit)
    case Err(e) => Err(e)
    case Ok(kept) => TokenizeWords(t, SplitWhitespace(kept), 0)
  }

  /** The stream handed to the engine: a fresh cursor over the token list. */
  function TokenStream(t: EdgeNgramTokenizer, text: string): (r: Result<VecTokenStream, SliceError>)
    ensures r.Ok? ==> r.value.next == 0 && Tokenize(t, text) == Ok(r.value.tokens)
    ensures r.Err? <==> Tokenize(t, text).Err?
  {
    match Tokenize(t, text)
    case Err(e) => Err(e)
    case Ok(tokens) => Ok(Fresh(tokens))
  }

  /**
    The n-grams a word should produce, counted in characters: lengths
    `n..hi`, each the first that many characters.
  */
  function CharGrams(word: string, position: nat, n: nat, hi: nat): (r: seq<Token>)
    requires hi <= |word|
    decreases if n <= hi then hi + 1 - n else 0
  {
    if n > hi then [] else [Token(0, n, position, word[..n], 1)] + CharGrams(word, position, n + 1, hi)
  }

  /** The reference token list over a word list, in characters. */
  function CharTokens(t: EdgeNgramTokenizer, words: seq<string>, start: nat): seq<Token>
    decreases |words|
  {
    if |words| == 0 then []
    else
      var w := words[0];
      (if |w| < t.minGram then [] else CharGrams(w, start, t.minGram, Min(t.maxGram, |w|)))
      + CharTokens(t, words[1..], start + 1)
  }

  lemma {:induction false} AsciiGrams(word: string, position: nat, n: nat, hi: nat)
    requires IsAscii(word) && hi <= |word|
    ensures Grams(word, position, n, hi) == Ok(CharGrams(word, position, n, hi))
    decreases if n <= hi then hi + 1 - n else 0
  {
    if n <= hi {
      AsciiBoundaries(word, n);
      AsciiGrams(word, position, n + 1, hi);
    }
  }

  lemma {:induction false} AsciiTokenizeWords(t: EdgeNgramTokenizer, words: seq<string>, start: nat)
    requires forall i :: 0 <= i < |words| ==> IsAscii(words[i])
    ensures TokenizeWords(t, words, start) == Ok(CharTokens(t, words, start))
    decreases |words|
  {
    if |words| > 0 {
      var w := words[0];
      ByteLenBounds(w);
      if |w| >= t.minGram {
        AsciiGrams(w, start, t.minGram, Min(t.maxGram, |w|));
      }
      AsciiTokenizeWords(t, words[1..], start + 1);
    }
  }

  /**
    On ASCII input the tokenizer never panics, and it produces exactly the
    character-counted reference: for each whitespace-separated word of the
    first `limit` characters, numbered from 0 whether or not it yields
    anything, the prefixes of `minGram` to `min(maxGram, length)` characters.
  */
  lemma AsciiMatchesReference(t: EdgeNgramTokenizer, text: string)
    requires IsAscii(text)
    ensures Tokenize(t, text) == Ok(CharTokens(t, SplitWhitespace(text[..Min(|text|, t.limit)]), 0))
  {
    AsciiTruncate(text, t.limit);
    var kept := text[..Min(|text|, t.limit)];
    AsciiWords(kept);
    AsciiTokenizeWords(t, SplitWhitespace(kept), 0);
  }

  /** An ASCII example follows from its split and its reference tokens. */
  lemma ExampleFromReference(t: EdgeNgramTokenizer, text: string, words: seq<string>, expected: seq<Token>)
    requires IsAscii(text)
    requires SplitWhitespace(text[..Min(|text|, t.limit)]) == words
    requires CharTokens(t, words, 0) == expected
    ensures Tokenize(t, text) == Ok(expected)
  {
    AsciiMatchesReference(t, text);
  }

  /** The example sentence splits into its three words. */
  lemma SplitHelloMyFriend()
    ensures SplitWhitespace("hello my friend") == ["hello", "my", "friend"]
  {
    assert "hello my friend" == "hello" + (" " + ("my" + " " + "friend"));
    SplitThreeWords("hello", "my", "friend");
  }

  /** The example sentence cut to ten bytes splits into three words, the last one letter long. */
  lemma SplitHelloMyF()
    ensures SplitWhitespace("hello my f") == ["hello", "my", "f"]
  {
    assert "hello my f" == "hello" + (" " + ("my" + " " + "f"));
    SplitThreeWords("hello", "my", "f");
  }

  /** The 2..5 character prefixes of "hello". */
  lemma HelloGrams()
    ensures CharGrams("hello", 0, 2, 5) == [Token(0, 2, 0, "he", 1), Token(0, 3, 0, "hel", 1), Token(0, 4, 0, "hell", 1), Token(0, 5, 0, "hello", 1)]
  {
    var w := "hello";
    assert w[..2] == "he" && w[..3] == "hel" && w[..4] == "hell" && w[..5] == "hello";
    assert CharGrams(w, 0, 6, 5) == [];
    assert CharGrams(w, 0, 5, 5) == [Token(0, 5, 0, "hello", 1)];
    assert CharGrams(w, 0, 4, 5) == [Token(0, 4, 0, "hell", 1), Token(0, 5, 0, "hello", 1)];
    assert CharGrams(w, 0, 3, 5) == [Token(0, 3, 0, "hel", 1), Token(0, 4, 0, "hell", 1), Token(0, 5, 0, "hello", 1)];
  }

  /** The 2..5 character prefixes of "friend", at position 2. */
  lemma FriendGrams()
    ensures CharGrams("friend", 2, 2, 5) == [Token(0, 2, 2, "fr", 1), Token(0, 3, 2, "fri", 1), Token(0, 4, 2, "frie", 1), Token(0, 5, 2, "frien", 1)]
  {
    var w := "friend";
    assert w[..2] == "fr" && w[..3] == "fri" && w[..4] == "frie" && w[..5] == "frien";
    assert CharGrams(w, 2, 6, 5) == [];
    assert CharGrams(w, 2, 5, 5) == [Token(0, 5, 2, "frien", 1)];
    assert CharGrams(w, 2, 4, 5) == [Token(0, 4, 2, "frie", 1), Token(0, 5, 2, "frien", 1)];
    assert CharGrams(w, 2, 3, 5) == [Token(0, 3, 2, "fri", 1), Token(0, 4, 2, "frie", 1), Token(0, 5, 2, "frien", 1)];
  }

  /** The reference tokens of the three example words. */
  lemma HelloMyFriendReference()
    ensures CharTokens(EdgeNgramTokenizer(2, 5, 20), ["hello", "my", "friend"], 0) == [
      Token(0, 2, 0, "he", 1), Token(0, 3, 0, "hel", 1), Token(0, 4, 0, "hell", 1), Token(0, 5, 0, "hello", 1),
      Token(0, 2, 1, "my", 1),
      Token(0, 2, 2, "fr", 1), Token(0, 3, 2, "fri", 1), Token(0, 4, 2, "frie", 1), Token(0, 5, 2, "frien", 1)]
  {
    var t := EdgeNgramTokenizer(2, 5, 20);
    var ws := ["hello", "my", "friend"];
    HelloGrams();
    FriendGrams();
    assert "my"[..2] == "my";
    assert CharGrams("my", 1, 3, 2) == [];
    assert CharGrams("my", 1, 2, 2) == [Token(0, 2, 1, "my", 1)];
    assert ws[1..] == ["my", "friend"];
    assert ws[1..][1..] == ["friend"];
    assert ws[1..][1..][1..] == [];
    assert CharTokens(t, ["friend"], 2) == CharGrams("friend", 2, 2, 5);
    assert CharTokens(t, ["my", "friend"], 1) == CharGrams("my", 1, 2, 2) + CharGrams("friend", 2, 2, 5);
  }

  /** The basic example: every word long enough yields its 2..5 prefixes at its own position. */
  lemma HelloMyFriendExample(text: string)
    requires text == "hello my friend"
    ensures Tokenize(EdgeNgramTokenizer(2, 5, 20), text) == Ok([
      Token(0, 2, 0, "he", 1), Token(0, 3, 0, "hel", 1), Token(0, 4, 0, "hell", 1), Token(0, 5, 0, "hello", 1),
      Token(0, 2, 1, "my", 1),
      Token(0, 2, 2, "fr", 1), Token(0, 3, 2, "fri", 1), Token(0, 4, 2, "frie", 1), Token(0, 5, 2, "frien", 1)])
  {
    assert IsAscii(text);
    assert text[..Min(|text|, 20)] == text;
    SplitHelloMyFriend();
    HelloMyFriendReference();
    ExampleFromReference(EdgeNgramTokenizer(2, 5, 20), text, ["hello", "my", "friend"], [
      Token(0, 2, 0, "he", 1), Token(0, 3, 0, "hel", 1), Token(0, 4, 0, "hell", 1), Token(0, 5, 0, "hello", 1),
      Token(0, 2, 1, "my", 1),
      Token(0, 2, 2, "fr", 1), Token(0, 3, 2, "fri", 1), Token(0, 4, 2, "frie", 1), Token(0, 5, 2, "frien", 1)]);
  }

  /** The reference tokens of the three words left after the ten-byte cut. */
  lemma HelloMyFReference()
    ensures CharTokens(EdgeNgramTokenizer(2, 5, 10), ["hello", "my", "f"], 0) == [
      Token(0, 2, 0, "he", 1), Token(0, 3, 0, "hel", 1), Token(0, 4, 0, "hell", 1), Token(0, 5, 0, "hello", 1),
      Token(0, 2, 1, "my", 1)]
  {
    var t := EdgeNgramTokenizer(2, 5, 10);
    var ws := ["hello", "my", "f"];
    HelloGrams();
    assert "my"[..2] == "my";
    assert CharGrams("my", 1, 3, 2) == [];
    assert CharGrams("my", 1, 2, 2) == [Token(0, 2, 1, "my", 1)];
    assert ws[1..] == ["my", "f"];
    assert ws[1..][1..] == ["f"];
    assert ws[1..][1..][1..] == [];
    assert CharTokens(t, ["f"], 2) == [];
    assert CharTokens(t, ["my", "f"], 1) == CharGrams("my", 1, 2, 2);
  }

  /**
    The byte budget cuts "friend" to "f" before splitting; a one-byte word
    is shorter than `minGram` and yields nothing.
  */
  lemma WithLimitExample(text: string)
    requires text == "hello my friend"
    ensures Tokenize(EdgeNgramTokenizer(2, 5, 10), text) == Ok([
      Token(0, 2, 0, "he", 1), Token(0, 3, 0, "hel", 1), Token(0, 4, 0, "hell", 1), Token(0, 5, 0, "hello", 1),
      Token(0, 2, 1, "my", 1)])
  {
    assert IsAscii(text);
    assert text[..Min(|text|, 10)] == "hello my f";
    SplitHelloMyF();
    HelloMyFReference();
    ExampleFromReference(EdgeNgramTokenizer(2, 5, 10), text, ["hello", "my", "f"], [
      Token(0, 2, 0, "he", 1), Token(0, 3, 0, "hel", 1), Token(0, 4, 0, "hell", 1), Token(0, 5, 0, "hello", 1),
      Token(0, 2, 1, "my", 1)]);
  }

  /** The reference tokens of two two-letter words. */
  lemma HiMyReference()
    ensures CharTokens(EdgeNgramTokenizer(2, 3, 10), ["hi", "my"], 0) == [Token(0, 2, 0, "hi", 1), Token(0, 2, 1, "my", 1)]
  {
    var t := EdgeNgramTokenizer(2, 3, 10);
    var ws := ["hi", "my"];
    assert "hi"[..2] == "hi" && "my"[..2] == "my";
    assert CharGrams("hi", 0, 3, 2) == [] && CharGrams("my", 1, 3, 2) == [];
    assert CharGrams("hi", 0, 2, 2) == [Token(0, 2, 0, "hi", 1)];
    assert CharGrams("my", 1, 2, 2) == [Token(0, 2, 1, "my", 1)];
    assert ws[1..] == ["my"];
    assert ws[1..][1..] == [];
    assert CharTokens(t, ["my"], 1) == [Token(0, 2, 1, "my", 1)];
  }

  /** `maxGram` beyond a word's length is cut to the length: two-letter words give one gram each. */
  lemma MinGramExample(text: string)
    requires text == "hi my"
    ensures Tokenize(EdgeNgramTokenizer(2, 3, 10), text) == Ok([Token(0, 2, 0, "hi", 1), Token(0, 2, 1, "my", 1)])
  {
    assert IsAscii(text);
    assert text[..Min(|text|, 10)] == text;
    assert text == "hi" + " " + "my";
    SplitTwoWords("hi", "my");
    HiMyReference();
    ExampleFromReference(EdgeNgramTokenizer(2, 3, 10), text, ["hi", "my"], [Token(0, 2, 0, "hi", 1), Token(0, 2, 1, "my", 1)]);
  }

  /** The reference tokens of "hello" with grams of 4..10 characters. */
  lemma HelloFromFourReference()
    ensures CharTokens(EdgeNgramTokenizer(4, 10, 10), ["hello"], 0) == [Token(0, 4, 0, "hell", 1), Token(0, 5, 0, "hello", 1)]
  {
    var w := "hello";
    assert w[..4] == "hell" && w[..5] == "hello";
    assert CharGrams(w, 0, 6, 5) == [];
    assert CharGrams(w, 0, 5, 5) == [Token(0, 5, 0, "hello", 1)];
    assert CharGrams(w, 0, 4, 5) == [Token(0, 4, 0, "hell", 1), Token(0, 5, 0, "hello", 1)];
    var ws: seq<string> := [w];
    assert ws[1..] == [];
  }

  /** A word shorter than `minGram` bytes yields nothing; longer ones yield every length up to `maxGram`. */
  lemma HelloWithMinFourExample(text: string)
    requires text == "hello"
    ensures Tokenize(EdgeNgramTokenizer(4, 10, 10), text) == Ok([Token(0, 4, 0, "hell", 1), Token(0, 5, 0, "hello", 1)])
  {
    assert IsAscii(text);
    assert text[..Min(|text|, 10)] == text;
    SplitSingleWord(text);
    HelloFromFourReference();
    ExampleFromReference(EdgeNgramTokenizer(4, 10, 10), text, ["hello"], [Token(0, 4, 0, "hell", 1), Token(0, 5, 0, "hello", 1)]);
  }

  /** Empty input yields no tokens, whatever the settings. */
  lemma EmptyInputNoTokens(t: EdgeNgramTokenizer)
    ensures Tokenize(t, "") == Ok([])
  {
  }

  /** A one-byte gram of a two-byte character slices inside it: the tokenizer panics. */
  lemma MultiByteWordPanics(text: string)
    requires text == "\U{E9}"
    ensures Tokenize(EdgeNgramTokenizer(1, 3, 10), text).Err?
  {
  }

  /**
    The n-grams of one word counted in characters, with byte offsets: what
    the slicing evidently means, and what cannot panic.
  */
  function SafeGrams(word: string, position: nat, n: nat, hi: nat): (r: seq<Token>)
    requires hi <= |word|
    decreases if n <= hi then hi + 1 - n else 0
    ensures |r| == if n <= hi then hi + 1 - n else 0
    ensures forall i :: 0 <= i < |r| ==>
              && r[i] == Token(0, ByteLen(word[..n + i]), position, word[..n + i], 1)
  {
    if n > hi then [] else [Token(0, ByteLen(word[..n]), position, word[..n], 1)] + SafeGrams(word, position, n + 1, hi)
  }

  function SafeTokenizeWords(t: EdgeNgramTokenizer, words: seq<string>, start: nat): (r: seq<Token>)
    decreases |words|
  {
    if |words| == 0 then []
    else
      var w := words[0];
      (if |w| < t.minGram then [] else SafeGrams(w, start, t.minGram, Min(t.maxGram, |w|)))
      + SafeTokenizeWords(t, words[1..], start + 1)
  }

  /**
    The corrected tokenizer: the byte budget is cut at the last character
    boundary within it and grams are counted in characters, so every input
    is accepted.
  */
  function SafeTokenize(t: EdgeNgramTokenizer, text: string): (r: seq<Token>)
  {
    SafeTokenizeWords(t, SplitWhitespace(text[..CharsWithin(text, t.limit)]), 0)
  }

  lemma {:induction false} SafeGramsAscii(word: string, position: nat, n: nat, hi: nat)
    requires IsAscii(word) && hi <= |word|
    ensures SafeGrams(word, position, n, hi) == CharGrams(word, position, n, hi)
    decreases if n <= hi then hi + 1 - n else 0
  {
    if n <= hi {
      assert IsAscii(word[..n]);
      ByteLenBounds(word[..n]);
      SafeGramsAscii(word, position, n + 1, hi);
    }
  }

  lemma {:induction false} SafeTokenizeWordsAscii(t: EdgeNgramTokenizer, words: seq<string>, start: nat)
    requires forall i :: 0 <= i < |words| ==> IsAscii(words[i])
    ensures SafeTokenizeWords(t, words, start) == CharTokens(t, words, start)
    decreases |words|
  {
    if |words| > 0 {
      var w := words[0];
      if |w| >= t.minGram {
        SafeGramsAscii(w, start, t.minGram, Min(t.maxGram, |w|));
      }
      SafeTokenizeWordsAscii(t, words[1..], start + 1);
    }
  }

  /** On ASCII input the corrected tokenizer agrees with the original exactly. */
  lemma SafeTokenizeAgreesOnAscii(t: EdgeNgramTokenizer, text: string)
    requires IsAscii(text)
    ensures Tokenize(t, text) == Ok(SafeTokenize(t, text))
  {
    AsciiMatchesReference(t, text);
    ByteLenBounds(text);
    var k := CharsWithin(text, t.limit);
    ByteLenBounds(text[..k]);
    if k < |text| {
      assert IsAscii(text[..k + 1]);
      ByteLenBounds(text[..k + 1]);
    }
    assert k == Min(|text|, t.limit);
    var kept := text[..k];
    assert IsAscii(kept);
    AsciiWords(kept);
    SafeTokenizeWordsAscii(t, SplitWhitespace(kept), 0);
  }

  /** Where the original panics, the corrected tokenizer yields the character gram. */
  lemma SafeTokenizeHandlesMultiByte(text: string)
    requires text == "\U{E9}"
    ensures SafeTokenize(EdgeNgramTokenizer(1, 3, 10), text) == [Token(0, 2, 0, text, 1)]
  {
    assert ByteLen(text) == 2;
    assert text[..1] == text;
    assert CharsWithin(text, 10) == 1;
    SplitSingleWord(text);
    assert SafeGrams(text, 0, 2, 1) == [];
    assert SafeGrams(text, 0, 1, 1) == [Token(0, 2, 0, text, 1)];
    assert [text][1..] == [];
    assert SafeTokenizeWords(EdgeNgramTokenizer(1, 3, 10), [text], 0) == SafeGrams(text, 0, 1, 1);
  }
}
