/**
  Term extraction: running a field's analyzer over query text and pairing
  each token's position with a term on that field.
*/
module Terms {
  import opened Wrappers
  import opened Tokens

  /** A schema field handle. */
  type Field = nat

  /** A term: a token text bound to a field. */
  datatype Term = Term(field: Field, text: string)

  /** An analyzer, as the token list its stream produces for a text. */
  type Analyzer = string -> seq<Token>

  /** The index capability extraction needs: the analyzer registered for a field. */
  datatype Index = Index(tokenizerFor: Field -> Option<Analyzer>)

  datatype ExtractError = TokenizerUnavailable | ZeroTerms

  /** A stored document value; only text values carry text. */
  datatype OwnedValue =
    | Str(s: string)
    | PreTokStr(s: string)
    | U64(u: nat)
    | I64(i: int)
    | F64(f: real)
    | Boolean(b: bool)
    | Null

  /** `extract_text_from_owned_value`: the text of a `Str` value, nothing otherwise. */
  function ExtractText(v: OwnedValue): (r: Option<string>)
    ensures r.Some? <==> v.Str?
    ensures r.Some? ==> r.value == v.s
  {
    match v
    case Str(s) => Some(s)
    case _ => None
  }

  /** The (position, term) pairs collected from a token list, in order. */
  function PairTerms(field: Field, tokens: seq<Token>): (r: seq<(nat, Term)>)
    ensures |r| == |tokens|
    ensures forall i :: 0 <= i < |tokens| ==> r[i] == (tokens[i].position, Term(field, tokens[i].text))
  {
    seq(|tokens|, i requires 0 <= i < |tokens| => (tokens[i].position, Term(field, tokens[i].text)))
  }

  /**
    `extract_terms`: the analyzer lookup fails first; otherwise the analyzer's
    stream is processed to the end and at least one term must come out.
  */
  function ExtractTerms(index: Index, field: Field, text: string): (r: Result<seq<(nat, Term)>, ExtractError>)
    ensures index.tokenizerFor(field).None? ==> r == Err(TokenizerUnavailable)
    ensures index.tokenizerFor(field).Some? ==>
              var tokens := index.tokenizerFor(field).value(text);
              && (r == Err(ZeroTerms) <==> |tokens| == 0)
              && (r.Ok? ==> |r.value| == |tokens| > 0
                            && forall i :: 0 <= i < |tokens| ==> r.value[i] == (tokens[i].position, Term(field, tokens[i].text)))
    ensures r.Ok? <==> index.tokenizerFor(field).Some? && |index.tokenizerFor(field).value(text)| > 0
    ensures r.Ok? ==> |r.value| > 0 && forall i :: 0 <= i < |r.value| ==> r.value[i].1.field == field
  {
    match index.tokenizerFor(field)
    case None => Err(TokenizerUnavailable)
    case Some(analyzer) =>
      var tokens := analyzer(text);
      ProcessFresh(tokens);
      var terms := PairTerms(field, Process(Fresh(tokens)));
      if |terms| > 0 then Ok(terms) else Err(ZeroTerms)
  }
}
