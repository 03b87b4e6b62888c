/**
  Rust `&str` text as a sequence of Unicode scalar values, with the UTF-8
  byte measure that `str::len`, `split_at` and byte-range slicing use, and
  `split_whitespace`.
*/
module Text {
  import opened Wrappers

  /** Rust's panic on slicing a `&str` at a byte offset inside a character. */
  datatype SliceError = NotCharBoundary(offset: nat)

  function Min(a: nat, b: nat): nat {
    if a <= b then a else b
  }

  /** Number of UTF-8 bytes encoding one scalar value. */
  function Utf8Width(c: char): (w: nat)
    ensures 1 <= w <= 4
    ensures (c as int < 0x80) <==> w == 1
  {
    if c as int < 0x80 then 1
    else if c as int < 0x800 then 2
    else if c as int < 0x1_0000 then 3
    else 4
  }

  /** `str::len`: the length of the UTF-8 encoding in bytes. */
  function ByteLen(s: string): nat
  {
    if |s| == 0 then 0 else Utf8Width(s[0]) + ByteLen(s[1..])
  }

  predicate IsAscii(s: string) {
    forall i :: 0 <= i < |s| ==> s[i] as int < 0x80
  }

  lemma {:induction false} ByteLenAppend(a: string, b: string)
    ensures ByteLen(a + b) == ByteLen(a) + ByteLen(b)
    decreases |a|
  {
    if |a| == 0 {
      assert a + b == b;
    } else {
      assert (a + b)[1..] == a[1..] + b;
      ByteLenAppend(a[1..], b);
    }
  }

  /** Every scalar value takes at least one byte; ASCII takes exactly one. */
  lemma {:induction false} ByteLenBounds(s: string)
    ensures |s| <= ByteLen(s) <= 4 * |s|
    ensures IsAscii(s) ==> ByteLen(s) == |s|
    decreases |s|
  {
    if |s| > 0 {
      ByteLenBounds(s[1..]);
    }
  }

  /**
    The number of leading scalar values spanning exactly `b` bytes, or None
    when byte offset `b` is not a char boundary of `s` (where Rust's byte
    slicing panics).
  */
  function CharsInBytes(s: string, b: nat): (r: Option<nat>)
    decreases |s|
    ensures r.Some? ==> r.value <= |s| && ByteLen(s[..r.value]) == b
    ensures r.None? ==> forall k :: 0 <= k <= |s| ==> ByteLen(s[..k]) != b
  {
    if b == 0 then
      assert s[..0] == [];
      Some(0)
    else if |s| == 0 then
      None
    else if Utf8Width(s[0]) <= b then
      match CharsInBytes(s[1..], b - Utf8Width(s[0]))
      case Some(k) =>
        assert s[..k + 1] == [s[0]] + s[1..][..k];
        Some(k + 1)
      case None =>
        assert forall k :: 1 <= k <= |s| ==> s[..k][1..] == s[1..][..k - 1];
        None
    else
      assert forall k :: 1 <= k <= |s| ==> s[..k][1..] == s[1..][..k - 1];
      None
  }

  /** On ASCII text every byte offset up to the length is a char boundary. */
  lemma {:induction false} AsciiBoundaries(s: string, b: nat)
    requires IsAscii(s) && b <= |s|
    ensures CharsInBytes(s, b) == Some(b)
    decreases |s|
  {
    if b > 0 {
      AsciiBoundaries(s[1..], b - 1);
    }
  }

  /** Rust's `char::is_whitespace`: the Unicode White_Space property. */
  predicate IsWhitespace(c: char) {
    var x := c as int;
    (0x09 <= x <= 0x0D) || x == 0x20 || x == 0x85 || x == 0xA0 || x == 0x1680
    || (0x2000 <= x <= 0x200A) || x == 0x2028 || x == 0x2029 || x == 0x202F
    || x == 0x205F || x == 0x3000
  }

  /** Length of the leading run of non-whitespace scalar values. */
  function WordLen(s: string): (k: nat)
    decreases |s|
    ensures k <= |s|
    ensures forall i :: 0 <= i < k ==> !IsWhitespace(s[i])
    ensures k < |s| ==> IsWhitespace(s[k])
  {
    if |s| == 0 || IsWhitespace(s[0]) then 0 else 1 + WordLen(s[1..])
  }

  /** True of a non-empty run that contains no whitespace. */
  predicate IsWord(w: string) {
    |w| > 0 && forall i :: 0 <= i < |w| ==> !IsWhitespace(w[i])
  }

  /** `str::split_whitespace`: the maximal whitespace-free runs, in order. */
  function SplitWhitespace(s: string): (ws: seq<string>)
    decreases |s|
    ensures forall i :: 0 <= i < |ws| ==> IsWord(ws[i])
  {
    if |s| == 0 then []
    else if IsWhitespace(s[0]) then SplitWhitespace(s[1..])
    else
      var k := WordLen(s);
      [s[..k]] + SplitWhitespace(s[k..])
  }

  /** The non-whitespace scalar values of `s`, in order. */
  function NonWhitespace(s: string): string
    decreases |s|
  {
    if |s| == 0 then []
    else if IsWhitespace(s[0]) then NonWhitespace(s[1..])
    else [s[0]] + NonWhitespace(s[1..])
  }

  function Concat(ws: seq<string>): string
    decreases |ws|
  {
    if |ws| == 0 then [] else ws[0] + Concat(ws[1..])
  }

  lemma {:induction false} NonWhitespaceOfWord(w: string, rest: string)
    requires forall i :: 0 <= i < |w| ==> !IsWhitespace(w[i])
    ensures NonWhitespace(w + rest) == w + NonWhitespace(rest)
    decreases |w|
  {
    if |w| > 0 {
      assert (w + rest)[1..] == w[1..] + rest;
      NonWhitespaceOfWord(w[1..], rest);
      assert w == [w[0]] + w[1..];
    } else {
      assert w + rest == rest;
    }
  }

  /**
    Splitting loses exactly the whitespace: the words, glued back together,
    are the non-whitespace characters of the input in order.
  */
  lemma {:induction false} SplitWhitespaceKeepsEverythingElse(s: string)
    ensures Concat(SplitWhitespace(s)) == NonWhitespace(s)
    decreases |s|
  {
    if |s| == 0 {
    } else if IsWhitespace(s[0]) {
      SplitWhitespaceKeepsEverythingElse(s[1..]);
    } else {
      var k := WordLen(s);
      SplitWhitespaceKeepsEverythingElse(s[k..]);
      assert s == s[..k] + s[k..];
      NonWhitespaceOfWord(s[..k], s[k..]);
      var ws := SplitWhitespace(s);
      assert ws[0] == s[..k];
      assert ws[1..] == SplitWhitespace(s[k..]);
    }
  }

  /**
    `text.split_at(limit).0` when `limit` reaches the end of the text, or
    the text itself when it is shorter than `limit` bytes.
  */
  function TruncateBytes(text: string, limit: nat): (r: Result<string, SliceError>)
    ensures ByteLen(text) < limit ==> r == Ok(text)
    ensures r.Ok? ==> r.value <= text && ByteLen(r.value) == Min(ByteLen(text), limit)
    ensures r.Err? <==> ByteLen(text) >= limit && CharsInBytes(text, limit).None?
  {
    if ByteLen(text) < limit then
      assert text[..|text|] == text;
      Ok(text)
    else
      match CharsInBytes(text, limit)
      case Some(k) => Ok(text[..k])
      case None => Err(NotCharBoundary(limit))
  }

  /** The words of ASCII text are ASCII. */
  lemma {:induction false} AsciiWords(s: string)
    requires IsAscii(s)
    ensures forall i :: 0 <= i < |SplitWhitespace(s)| ==> IsAscii(SplitWhitespace(s)[i])
    decreases |s|
  {
    if |s| > 0 {
      if IsWhitespace(s[0]) {
        AsciiWords(s[1..]);
      } else {
        var k := WordLen(s);
        AsciiWords(s[k..]);
        var ws := SplitWhitespace(s);
        assert ws[1..] == SplitWhitespace(s[k..]);
        forall i | 0 <= i < |ws|
          ensures IsAscii(ws[i])
        {
          if i > 0 {
            assert ws[i] == ws[1..][i - 1];
          }
        }
      }
    }
  }

  /** On ASCII text the byte cut is a plain prefix of `limit` characters. */
  lemma AsciiTruncate(text: string, limit: nat)
    requires IsAscii(text)
    ensures TruncateBytes(text, limit) == Ok(text[..Min(|text|, limit)])
    ensures IsAscii(text[..Min(|text|, limit)])
  {
    ByteLenBounds(text);
    if |text| >= limit {
      AsciiBoundaries(text, limit);
    } else {
      assert text[..|text|] == text;
    }
  }

  lemma {:induction false} WordLenOfWord(w: string, rest: string)
    requires IsWord(w) && |rest| > 0 && IsWhitespace(rest[0])
    ensures WordLen(w + rest) == |w|
    decreases |w|
  {
    if |w| > 1 {
      assert (w + rest)[1..] == w[1..] + rest;
      WordLenOfWord(w[1..], rest);
    } else {
      assert (w + rest)[1..] == rest;
    }
  }

  /** A word followed by whitespace is split off as the first word. */
  lemma SplitLeadingWord(w: string, rest: string)
    requires IsWord(w) && |rest| > 0 && IsWhitespace(rest[0])
    ensures SplitWhitespace(w + rest) == [w] + SplitWhitespace(rest[1..])
  {
    WordLenOfWord(w, rest);
    var s := w + rest;
    assert s[..|w|] == w;
    assert s[|w|..] == rest;
  }

  lemma {:induction false} SplitSingleWord(w: string)
    requires IsWord(w)
    ensures SplitWhitespace(w) == [w]
  {
    var k := WordLen(w);
    assert k == |w|;
    assert w[..k] == w;
    assert w[k..] == [];
  }

  /** Two words with one space between them split into those two words. */
  lemma SplitTwoWords(a: string, b: string)
    requires IsWord(a) && IsWord(b)
    ensures SplitWhitespace(a + " " + b) == [a, b]
  {
    assert a + " " + b == a + (" " + b);
    SplitLeadingWord(a, " " + b);
    assert (" " + b)[1..] == b;
    SplitSingleWord(b);
  }

  /** Three words with single spaces between them split into those three words. */
  lemma SplitThreeWords(a: string, b: string, c: string)
    requires IsWord(a) && IsWord(b) && IsWord(c)
    ensures SplitWhitespace(a + (" " + (b + " " + c))) == [a, b, c]
  {
    var rest := " " + (b + " " + c);
    assert rest[1..] == b + " " + c;
    SplitLeadingWord(a, rest);
    SplitTwoWords(b, c);
  }

  /** The longest prefix, in characters, that fits in `b` bytes. */
  function CharsWithin(s: string, b: nat): (k: nat)
    decreases |s|
    ensures k <= |s| && ByteLen(s[..k]) <= b
    ensures k < |s| ==> ByteLen(s[..k + 1]) > b
  {
    if |s| == 0 then
      assert s[..0] == [];
      0
    else if Utf8Width(s[0]) > b then
      assert s[..0] == [];
      assert s[..1] == [s[0]];
      0
    else
      var k := CharsWithin(s[1..], b - Utf8Width(s[0]));
      assert s[..k + 1] == [s[0]] + s[1..][..k];
      assert k + 1 < |s| ==> s[..k + 2] == [s[0]] + s[1..][..k + 1];
      k + 1
  }
}
