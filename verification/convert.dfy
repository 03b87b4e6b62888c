/**
  The query compiler: lowers the decoded query AST into the search
  engine's query tree, resolving field and text indices, extracting terms
  with each field's analyzer, and mapping modifiers to occurrences.
*/
module Convert {
  import opened Wrappers
  import opened Json
  import opened QueryModel
  import opened Terms
  import Serializers
  import WireEncoding

  datatype Occur = OccurMust | OccurShould | OccurMustNot

  /** The engine query tree the compiler builds. */
  datatype TQuery =
    | Phrase(terms: seq<(nat, Term)>)
    | PhrasePrefix(terms: seq<(nat, Term)>)
    | Boost(inner: TQuery, factor: real)
    | Bool(clauses: seq<(Occur, TQuery)>)

  /** The schema capability: field names to handles. */
  datatype Schema = Schema(getField: string -> Option<Field>)

  datatype CompileError =
    | FieldsOrTextsEmpty
    | InvalidFieldIndex
    | InvalidTextIndex
    | InvalidFieldName
    | ExtractFailed(cause: ExtractError)
    | PhraseTooShort
    | UnsupportedVariant
    | QueryIsNone
    | DecodeFailed(decodeError: Serializers.DecodeError)

  /** `modifier_to_occur`. */
  function ModifierToOccur(m: QueryModifier): Occur {
    match m
    case Must => OccurMust
    case Should => OccurShould
    case MustNot => OccurMustNot
  }

  function OccurToModifier(o: Occur): QueryModifier {
    match o
    case OccurMust => Must
    case OccurShould => Should
    case OccurMustNot => MustNot
  }

  /** The modifier-to-occurrence mapping is a bijection. */
  lemma OccurMappingBijective(m: QueryModifier, o: Occur)
    ensures OccurToModifier(ModifierToOccur(m)) == m
    ensures ModifierToOccur(OccurToModifier(o)) == o
    ensures ModifierToOccur(m) == o <==> m == OccurToModifier(o)
  {
  }

  /** `try_boost`: a boost of exactly 1.0 leaves the query bare. */
  function TryBoost(occur: Occur, boost: real, q: TQuery): (r: (Occur, TQuery))
  {
    if boost == 1.0 then (occur, q) else (occur, Boost(q, boost))
  }

  /** A boost node carrying `boost` when `boost` is not 1.0. */
  predicate WrappedFor(q: TQuery, boost: real) {
    boost == 1.0 || (q.Boost? && q.factor == boost)
  }

  /** The query under the boost node a boost other than 1.0 adds. */
  function Peel(q: TQuery, boost: real): TQuery {
    if boost != 1.0 && q.Boost? then q.inner else q
  }

  /** Boosting keeps the occurrence and wraps in at most one node, none for 1.0. */
  lemma TryBoostWrapsOnce(occur: Occur, boost: real, q: TQuery)
    ensures TryBoost(occur, boost, q).0 == occur
    ensures WrappedFor(TryBoost(occur, boost, q).1, boost)
    ensures Peel(TryBoost(occur, boost, q).1, boost) == q
    ensures boost == 1.0 ==> TryBoost(occur, boost, q).1 == q
  {
  }

  /** The index and schema the compiler consults. */
  datatype Env = Env(index: Index, schema: Schema)

  /** Index checks in order: field index, text index, then field name. */
  function ResolveFieldAndText(env: Env, fieldIndex: nat, textIndex: nat, texts: seq<string>, fields: seq<string>)
    : (r: Result<(Field, string), CompileError>)
    ensures fieldIndex >= |fields| ==> r == Err(InvalidFieldIndex)
    ensures fieldIndex < |fields| && textIndex >= |texts| ==> r == Err(InvalidTextIndex)
    ensures fieldIndex < |fields| && textIndex < |texts| && env.schema.getField(fields[fieldIndex]).None? ==> r == Err(InvalidFieldName)
    ensures r.Ok? <==> fieldIndex < |fields| && textIndex < |texts| && env.schema.getField(fields[fieldIndex]).Some?
    ensures r.Ok? ==> r.value == (env.schema.getField(fields[fieldIndex]).value, texts[textIndex])
  {
    if fieldIndex >= |fields| then Err(InvalidFieldIndex)
    else if textIndex >= |texts| then Err(InvalidTextIndex)
    else
      match env.schema.getField(fields[fieldIndex])
      case None => Err(InvalidFieldName)
      case Some(f) => Ok((f, texts[textIndex]))
  }

  /** Resolution and extraction for one leaf, failing on the first problem. */
  function LeafTerms(env: Env, fieldIndex: nat, textIndex: nat, texts: seq<string>, fields: seq<string>)
    : (r: Result<seq<(nat, Term)>, CompileError>)
    ensures r.Ok? <==> LeafCompiles(env, fieldIndex, textIndex, texts, fields, 1)
    ensures r.Ok? ==> r.value == Analyzed(env, fieldIndex, textIndex, texts, fields)
    ensures ResolveFieldAndText(env, fieldIndex, textIndex, texts, fields).Err? ==>
              r == Err(ResolveFieldAndText(env, fieldIndex, textIndex, texts, fields).error)
    ensures (ResolveFieldAndText(env, fieldIndex, textIndex, texts, fields).Ok?
             && !LeafCompiles(env, fieldIndex, textIndex, texts, fields, 0)) ==> r == Err(ExtractFailed(TokenizerUnavailable))
    ensures (LeafCompiles(env, fieldIndex, textIndex, texts, fields, 0)
             && !LeafCompiles(env, fieldIndex, textIndex, texts, fields, 1)) ==> r == Err(ExtractFailed(ZeroTerms))
  {
    match ResolveFieldAndText(env, fieldIndex, textIndex, texts, fields)
    case Err(e) => Err(e)
    case Ok((field, text)) =>
      match ExtractTerms(env.index, field, text)
      case Err(e) => Err(ExtractFailed(e))
      case Ok(terms) => Ok(terms)
  }

  /**
    Whether a leaf resolves and its text yields at least `minTerms` terms:
    stated directly over the tables, the schema and the analyzer.
  */
  predicate LeafCompiles(env: Env, fieldIndex: nat, textIndex: nat, texts: seq<string>, fields: seq<string>, minTerms: nat) {
    && fieldIndex < |fields|
    && textIndex < |texts|
    && env.schema.getField(fields[fieldIndex]).Some?
    && var field := env.schema.getField(fields[fieldIndex]).value;
       && env.index.tokenizerFor(field).Some?
       && |env.index.tokenizerFor(field).value(texts[textIndex])| >= minTerms
  }

  /**
    The (position, term) pairs a resolved leaf's text analyses to: one per
    token of the field's analyzer, in stream order.
  */
  function Analyzed(env: Env, fieldIndex: nat, textIndex: nat, texts: seq<string>, fields: seq<string>): seq<(nat, Term)>
    requires LeafCompiles(env, fieldIndex, textIndex, texts, fields, 0)
  {
    var field := env.schema.getField(fields[fieldIndex]).value;
    PairTerms(field, env.index.tokenizerFor(field).value(texts[textIndex]))
  }

  /** The kinds the compiler has an arm for. */
  predicate Supported(q: GoQuery) {
    q.BoolQuery? || q.PhraseQuery? || q.PhrasePrefixQuery? || q.TermPrefixQuery?
  }

  /**
    Exactly the clauses the compiler accepts: a payload everywhere, only the
    supported kinds, every leaf resolvable with enough terms (two for a
    phrase, one otherwise), and every child of a group acceptable.
  */
  predicate Compiles(env: Env, e: QueryElement, texts: seq<string>, fields: seq<string>)
    decreases e
  {
    match e.query
    case None => false
    case Some(q) =>
      match q
      case BoolQuery(subs, _) => forall i :: 0 <= i < |subs| ==> Compiles(env, subs[i], texts, fields)
      case PhraseQuery(fi, ti, _) => LeafCompiles(env, fi, ti, texts, fields, 2)
      case PhrasePrefixQuery(fi, ti, _) => LeafCompiles(env, fi, ti, texts, fields, 1)
      case TermPrefixQuery(fi, ti, _) => LeafCompiles(env, fi, ti, texts, fields, 1)
      case _ => false
  }

  /**
    What a clause compiles to: the clause's own occurrence; a group becomes
    an unboosted boolean with one clause per child, each what that child
    compiles to, in order; a phrase becomes a phrase of all the terms its
    text analyses to on its field, a phrase prefix a phrase prefix of all of
    them, and a term prefix a phrase prefix of the first one only; each
    leaf is wrapped in its boost unless that boost is 1.0.
  */
  predicate Lowers(env: Env, e: QueryElement, texts: seq<string>, fields: seq<string>, c: (Occur, TQuery))
    decreases e
  {
    && e.query.Some?
    && c.0 == ModifierToOccur(e.modifier)
    && match e.query.value
       case BoolQuery(subs, _) =>
         && c.1.Bool?
         && |c.1.clauses| == |subs|
         && forall i :: 0 <= i < |subs| ==> Lowers(env, subs[i], texts, fields, c.1.clauses[i])
       case PhraseQuery(fi, ti, b) =>
         && LeafCompiles(env, fi, ti, texts, fields, 2)
         && WrappedFor(c.1, b) && Peel(c.1, b) == Phrase(Analyzed(env, fi, ti, texts, fields))
       case PhrasePrefixQuery(fi, ti, b) =>
         && LeafCompiles(env, fi, ti, texts, fields, 1)
         && WrappedFor(c.1, b) && Peel(c.1, b) == PhrasePrefix(Analyzed(env, fi, ti, texts, fields))
       case TermPrefixQuery(fi, ti, b) =>
         && LeafCompiles(env, fi, ti, texts, fields, 1)
         && WrappedFor(c.1, b) && Peel(c.1, b) == PhrasePrefix([Analyzed(env, fi, ti, texts, fields)[0]])
       case _ => false
  }

  /** `Lowers` pins the compiled clause: at most one clause lowers a given clause. */
  lemma {:induction false} LowersUnique(env: Env, e: QueryElement, texts: seq<string>, fields: seq<string>,
                                        c1: (Occur, TQuery), c2: (Occur, TQuery))
    requires Lowers(env, e, texts, fields, c1) && Lowers(env, e, texts, fields, c2)
    ensures c1 == c2
    decreases e
  {
    match e.query.value
    case BoolQuery(subs, _) =>
      forall i | 0 <= i < |subs|
        ensures c1.1.clauses[i] == c2.1.clauses[i]
      {
        LowersUnique(env, subs[i], texts, fields, c1.1.clauses[i], c2.1.clauses[i]);
      }
      assert c1.1.clauses == c2.1.clauses;
    case _ =>
  }

  /**
    `element_to_query`: one clause to one (occurrence, query) pair. It
    succeeds exactly on the clauses `Compiles` describes, and what it
    builds has the shape `Lowers` describes.
  */
  function ElementToQuery(env: Env, e: QueryElement, texts: seq<string>, fields: seq<string>)
    : (r: Result<(Occur, TQuery), CompileError>)
    decreases e
    ensures r.Ok? <==> Compiles(env, e, texts, fields)
    ensures r.Ok? ==> Lowers(env, e, texts, fields, r.value)
    ensures e.query.None? ==> r == Err(QueryIsNone)
    ensures e.query.Some? && !Supported(e.query.value) ==> r == Err(UnsupportedVariant)
    ensures e.query.Some? && Supported(e.query.value) && !e.query.value.BoolQuery? ==>
              var q := e.query.value;
              var res := ResolveFieldAndText(env, q.fieldIndex, q.textIndex, texts, fields);
              && (res.Err? ==> r == Err(res.error))
              && (res.Ok? && !LeafCompiles(env, q.fieldIndex, q.textIndex, texts, fields, 0) ==>
                    r == Err(ExtractFailed(TokenizerUnavailable)))
              && ((LeafCompiles(env, q.fieldIndex, q.textIndex, texts, fields, 0)
                   && !LeafCompiles(env, q.fieldIndex, q.textIndex, texts, fields, 1)) ==> r == Err(ExtractFailed(ZeroTerms)))
              && ((q.PhraseQuery? && LeafCompiles(env, q.fieldIndex, q.textIndex, texts, fields, 1)
                   && !LeafCompiles(env, q.fieldIndex, q.textIndex, texts, fields, 2)) ==> r == Err(PhraseTooShort))
    ensures e.query.Some? && e.query.value.BoolQuery? && r.Err? ==>
              ElementsToQueries(env, e.query.value.subqueries, texts, fields) == Err(r.error)
  {
    var occur := ModifierToOccur(e.modifier);
    match e.query
    case None => Err(QueryIsNone)
    case Some(q) =>
      match q
      case PhraseQuery(fi, ti, boost) =>
        (match LeafTerms(env, fi, ti, texts, fields)
         case Err(err) => Err(err)
         case Ok(terms) =>
           if |terms| <= 1 then Err(PhraseTooShort)
           else
             Ok(TryBoost(occur, boost, Phrase(terms))))
      case PhrasePrefixQuery(fi, ti, boost) =>
        (match LeafTerms(env, fi, ti, texts, fields)
         case Err(err) => Err(err)
         case Ok(terms) =>
           Ok(TryBoost(occur, boost, PhrasePrefix(terms))))
      case TermPrefixQuery(fi, ti, boost) =>
        (match LeafTerms(env, fi, ti, texts, fields)
         case Err(err) => Err(err)
         case Ok(terms) =>
           Ok(TryBoost(occur, boost, PhrasePrefix([terms[0]]))))
      case BoolQuery(subs, _) =>
        (match ElementsToQueries(env, subs, texts, fields)
         case Err(err) => Err(err)
         case Ok(clauses) => Ok((occur, Bool(clauses))))
      case _ => Err(UnsupportedVariant)
  }

  /**
    The children of a group, compiled in order: one clause per child, and
    the first failing child's error aborts the whole list.
  */
  function ElementsToQueries(env: Env, es: seq<QueryElement>, texts: seq<string>, fields: seq<string>)
    : (r: Result<seq<(Occur, TQuery)>, CompileError>)
    decreases es
    ensures r.Ok? <==> forall i :: 0 <= i < |es| ==> ElementToQuery(env, es[i], texts, fields).Ok?
    ensures r.Ok? ==> |r.value| == |es|
    ensures r.Ok? ==> forall i :: 0 <= i < |es| ==> ElementToQuery(env, es[i], texts, fields) == Ok(r.value[i])
    ensures r.Err? ==>
              (exists i :: 0 <= i < |es|
                 && (forall j :: 0 <= j < i ==> ElementToQuery(env, es[j], texts, fields).Ok?)
                 && ElementToQuery(env, es[i], texts, fields) == Err(r.error))
  {
    if |es| == 0 then Ok([])
    else
      match ElementToQuery(env, es[0], texts, fields)
      case Err(err) => Err(err)
      case Ok(first) =>
        match ElementsToQueries(env, es[1..], texts, fields)
        case Err(err) =>
          ghost var i :| 0 <= i < |es[1..]|
              && (forall j :: 0 <= j < i ==> ElementToQuery(env, es[1..][j], texts, fields).Ok?)
              && ElementToQuery(env, es[1..][i], texts, fields) == Err(err);
          assert forall j :: 0 <= j < i + 1 ==> ElementToQuery(env, es[j], texts, fields).Ok?;
          Err(err)
        case Ok(rest) =>
          Ok([first] + rest)
  }

  /**
    `convert_to_tantivy`: empty tables are rejected up front; otherwise the
    root becomes an unboosted boolean with one clause per top-level element.
  */
  function ConvertToTantivy(env: Env, fq: FinalQuery): (r: Result<TQuery, CompileError>)
    ensures (|fq.fields| == 0 || |fq.texts| == 0) <==> r == Err(FieldsOrTextsEmpty)
    ensures r.Ok? <==> |fq.fields| > 0 && |fq.texts| > 0
                       && forall i :: 0 <= i < |fq.query.subqueries| ==> Compiles(env, fq.query.subqueries[i], fq.texts, fq.fields)
    ensures r.Ok? ==> r.value.Bool? && |r.value.clauses| == |fq.query.subqueries|
    ensures r.Ok? ==> forall i :: 0 <= i < |fq.query.subqueries| ==>
              && Lowers(env, fq.query.subqueries[i], fq.texts, fq.fields, r.value.clauses[i])
              && r.value.clauses[i].0 == ModifierToOccur(fq.query.subqueries[i].modifier)
    ensures r.Err? && r != Err(FieldsOrTextsEmpty) ==>
              (exists i :: 0 <= i < |fq.query.subqueries|
                 && (forall j :: 0 <= j < i ==> ElementToQuery(env, fq.query.subqueries[j], fq.texts, fq.fields).Ok?)
                 && ElementToQuery(env, fq.query.subqueries[i], fq.texts, fq.fields) == Err(r.error))
  {
    if |fq.fields| == 0 || |fq.texts| == 0 then Err(FieldsOrTextsEmpty)
    else
      match ElementsToQueries(env, fq.query.subqueries, fq.texts, fq.fields)
      case Err(err) =>
        assert err != FieldsOrTextsEmpty by {
          NeverEmptyTablesError(env, fq.query.subqueries, fq.texts, fq.fields);
        }
        Err(err)
      case Ok(clauses) => Ok(Bool(clauses))
  }

  /** Below the root, the empty-tables error never arises. */
  lemma NeverEmptyTablesError(env: Env, es: seq<QueryElement>, texts: seq<string>, fields: seq<string>)
    ensures ElementsToQueries(env, es, texts, fields) != Err(FieldsOrTextsEmpty)
    decreases es, 1
  {
    if ElementsToQueries(env, es, texts, fields) == Err(FieldsOrTextsEmpty) {
      var i :| 0 <= i < |es| && ElementToQuery(env, es[i], texts, fields) == Err(FieldsOrTextsEmpty);
      ElementNeverEmptyTablesError(env, es[i], texts, fields);
    }
  }

  lemma ElementNeverEmptyTablesError(env: Env, e: QueryElement, texts: seq<string>, fields: seq<string>)
    ensures ElementToQuery(env, e, texts, fields) != Err(FieldsOrTextsEmpty)
    decreases e, 0
  {
    if e.query.Some? && e.query.value.BoolQuery? {
      NeverEmptyTablesError(env, e.query.value.subqueries, texts, fields);
    }
  }

  /** `parse_query_from_json`: decode, then compile; a decode failure compiles nothing. */
  function ParseQueryFromJson(env: Env, json: JValue): (r: Result<TQuery, CompileError>)
    ensures Serializers.DecodeFinalQuery(json).Err? ==> r == Err(DecodeFailed(Serializers.DecodeFinalQuery(json).error))
    ensures Serializers.DecodeFinalQuery(json).Ok? ==> r == ConvertToTantivy(env, Serializers.DecodeFinalQuery(json).value)
  {
    match Serializers.DecodeFinalQuery(json)
    case Err(e) => Err(DecodeFailed(e))
    case Ok(fq) => ConvertToTantivy(env, fq)
  }

  /** The kinds the compiler has no arm for are rejected, payload and all. */
  lemma UnsupportedKindsRejected(env: Env, e: QueryElement, texts: seq<string>, fields: seq<string>)
    requires e.query.Some?
    requires e.query.value.TermQuery? || e.query.value.EveryTermQuery?
             || e.query.value.OneOfTermQuery? || e.query.value.AllQuery?
    ensures ElementToQuery(env, e, texts, fields) == Err(UnsupportedVariant)
  {
  }

  /**
    Leaves carry the extracted terms: a phrase or phrase prefix all of them
    in analyzer order, a term prefix only the first, as a one-term phrase
    prefix. A phrase with a single term is an error.
  */
  lemma LeafTermsUsed(env: Env, e: QueryElement, texts: seq<string>, fields: seq<string>)
    requires e.query.Some? && IsLeaf(e.query.value)
    requires LeafTerms(env, e.query.value.fieldIndex, e.query.value.textIndex, texts, fields).Ok?
    ensures var q := e.query.value;
            var terms := LeafTerms(env, q.fieldIndex, q.textIndex, texts, fields).value;
            var r := ElementToQuery(env, e, texts, fields);
            && (q.PhraseQuery? && |terms| == 1 ==> r == Err(PhraseTooShort))
            && (q.PhraseQuery? && |terms| >= 2 ==> r.Ok? && Peel(r.value.1, q.boost) == Phrase(terms))
            && (q.PhrasePrefixQuery? ==> r.Ok? && Peel(r.value.1, q.boost) == PhrasePrefix(terms))
            && (q.TermPrefixQuery? ==> r.Ok? && Peel(r.value.1, q.boost) == PhrasePrefix([terms[0]]))
  {
  }

  /** A nested group's boost is never looked at. */
  lemma NestedBoostIgnored(env: Env, subs: seq<QueryElement>, b1: real, b2: real, m: QueryModifier,
                           texts: seq<string>, fields: seq<string>)
    ensures ElementToQuery(env, QueryElement(Some(BoolQuery(subs, b1)), m), texts, fields)
         == ElementToQuery(env, QueryElement(Some(BoolQuery(subs, b2)), m), texts, fields)
  {
  }

  /**
    The full path from the wire: a document written in the wire shape
    decodes and compiles to what the document itself compiles to.
  */
  lemma WireDocumentCompiles(env: Env, fq: FinalQuery)
    requires WireEncoding.AllEncodable(fq.query.subqueries)
    ensures ParseQueryFromJson(env, WireEncoding.EncodeFinalQuery(fq)) == ConvertToTantivy(env, fq)
  {
    WireEncoding.FinalQueryRoundTrip(fq);
  }
}
