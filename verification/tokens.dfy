/**
  The token record of the search engine's analysis chain and the
  list-backed `VecTokenStream` cursor both edge n-gram tokenizers return.
*/
module Tokens {

  /** One token: byte offsets into the source text, word position, text. */
  datatype Token = Token(offsetFrom: nat, offsetTo: nat, position: nat, text: string, positionLength: nat)

  /**
    A cursor over a prepared token list. `next` counts the tokens handed out
    so far; the current token is the one just before it.
  */
  datatype VecTokenStream = VecTokenStream(tokens: seq<Token>, next: nat)

  /** The state a tokenizer returns: nothing handed out yet. */
  function Fresh(tokens: seq<Token>): VecTokenStream {
    VecTokenStream(tokens, 0)
  }

  /** A reachable cursor never runs past the end of its list. */
  predicate Valid(s: VecTokenStream) {
    s.next <= |s.tokens|
  }

  /** `advance`: step to the next token, reporting whether there was one. */
  function Advance(s: VecTokenStream): (r: (VecTokenStream, bool))
    ensures r.0.tokens == s.tokens
    ensures r.1 <==> s.next < |s.tokens|
    ensures r.1 ==> r.0.next == s.next + 1
    ensures !r.1 ==> r.0 == s
    ensures Valid(s) ==> Valid(r.0)
  {
    if s.next < |s.tokens| then (VecTokenStream(s.tokens, s.next + 1), true)
    else (s, false)
  }

  /** `token`: the token the last successful `advance` moved onto. */
  function Current(s: VecTokenStream): (t: Token)
    requires 1 <= s.next <= |s.tokens|
    ensures t in s.tokens
  {
    s.tokens[s.next - 1]
  }

  /** The results of `k` consecutive calls to `advance`. */
  function AdvanceResults(s: VecTokenStream, k: nat): seq<bool>
    decreases k
  {
    if k == 0 then []
    else
      var (s', b) := Advance(s);
      [b] + AdvanceResults(s', k - 1)
  }

  /** The cursor after `k` consecutive calls to `advance`. */
  function AdvanceTimes(s: VecTokenStream, k: nat): VecTokenStream
    decreases k
  {
    if k == 0 then s else AdvanceTimes(Advance(s).0, k - 1)
  }

  /**
    From a fresh cursor, `advance` answers true exactly `|tokens|` times and
    then false forever, and after the j-th true the current token is the
    j-th token of the list.
  */
  lemma {:induction false} AdvanceAnswers(s: VecTokenStream, k: nat)
    requires Valid(s)
    ensures |AdvanceResults(s, k)| == k
    ensures forall j :: 0 <= j < k ==> (AdvanceResults(s, k)[j] <==> s.next + j < |s.tokens|)
    ensures AdvanceTimes(s, k).tokens == s.tokens
    ensures AdvanceTimes(s, k).next == if s.next + k <= |s.tokens| then s.next + k else |s.tokens|
    decreases k
  {
    if k > 0 {
      var (s', b) := Advance(s);
      AdvanceAnswers(s', k - 1);
      var rs := AdvanceResults(s, k);
      assert rs == [b] + AdvanceResults(s', k - 1);
      forall j | 0 <= j < k
        ensures rs[j] <==> s.next + j < |s.tokens|
      {
        if j > 0 {
          assert rs[j] == AdvanceResults(s', k - 1)[j - 1];
        }
      }
    }
  }

  lemma CurrentAfterAdvances(tokens: seq<Token>, j: nat)
    requires 1 <= j <= |tokens|
    ensures AdvanceTimes(Fresh(tokens), j) == VecTokenStream(tokens, j)
    ensures Current(AdvanceTimes(Fresh(tokens), j)) == tokens[j - 1]
  {
    AdvanceAnswers(Fresh(tokens), j);
  }

  /**
    The engine's `TokenStream::process`: advance until exhausted, handing
    each current token to the sink; here the tokens handed out, in order.
  */
  function Process(s: VecTokenStream): (out: seq<Token>)
    requires Valid(s)
    decreases |s.tokens| - s.next
    ensures |out| == |s.tokens| - s.next
  {
    var (s', b) := Advance(s);
    if b then [Current(s')] + Process(s') else []
  }

  /** Processing a cursor from the start yields its list, each token once, in order. */
  lemma {:induction false} ProcessYieldsRemaining(s: VecTokenStream)
    requires Valid(s)
    ensures Process(s) == s.tokens[s.next..]
    decreases |s.tokens| - s.next
  {
    var (s', b) := Advance(s);
    if b {
      ProcessYieldsRemaining(s');
      assert s.tokens[s.next..] == [s.tokens[s.next]] + s.tokens[s.next + 1..];
    }
  }

  lemma ProcessFresh(tokens: seq<Token>)
    ensures Process(Fresh(tokens)) == tokens
  {
    ProcessYieldsRemaining(Fresh(tokens));
  }
}
