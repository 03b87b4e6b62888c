/**
  The structured query AST exchanged between the Go front end and the Rust
  compiler: the kinds of clause, their logical modifier, the typed payloads
  and the root document.
*/
module QueryModel {
  import opened Wrappers

  /** The eight clause kinds, in declaration order. */
  datatype QueryType =
    | BoolQueryType
    | PhraseQueryType
    | PhrasePrefixQueryType
    | TermPrefixQueryType
    | TermQueryType
    | EveryTermQueryType
    | OneOfTermQueryType
    | AllQueryType

  datatype QueryModifier = Must | Should | MustNot

  /**
    A typed clause payload. Every leaf carries a field index and a text index
    into the root tables and a boost; the match-all clause carries only a
    boost; a nested boolean group carries its children and a boost.
  */
  datatype GoQuery =
    | BoolQuery(subqueries: seq<QueryElement>, boost: real)
    | PhraseQuery(fieldIndex: nat, textIndex: nat, boost: real)
    | PhrasePrefixQuery(fieldIndex: nat, textIndex: nat, boost: real)
    | TermPrefixQuery(fieldIndex: nat, textIndex: nat, boost: real)
    | TermQuery(fieldIndex: nat, textIndex: nat, boost: real)
    | EveryTermQuery(fieldIndex: nat, textIndex: nat, boost: real)
    | OneOfTermQuery(fieldIndex: nat, textIndex: nat, boost: real)
    | AllQuery(boost: real)

  /** One clause: a modifier and an optional payload. */
  datatype QueryElement = QueryElement(query: Option<GoQuery>, modifier: QueryModifier)

  /** The root group: only subqueries, never a boost. */
  datatype RootBoolQuery = RootBoolQuery(subqueries: seq<QueryElement>)

  datatype FinalQuery = FinalQuery(texts: seq<string>, fields: seq<string>, query: RootBoolQuery)

  /** True of the six payload kinds that address a (field, text) pair. */
  predicate IsLeaf(q: GoQuery) {
    !q.BoolQuery? && !q.AllQuery?
  }

  /** The kind of clause a payload is. */
  function KindOf(q: GoQuery): (t: QueryType)
    ensures t == BoolQueryType <==> q.BoolQuery?
    ensures t == AllQueryType <==> q.AllQuery?
  {
    match q
    case BoolQuery(_, _) => BoolQueryType
    case PhraseQuery(_, _, _) => PhraseQueryType
    case PhrasePrefixQuery(_, _, _) => PhrasePrefixQueryType
    case TermPrefixQuery(_, _, _) => TermPrefixQueryType
    case TermQuery(_, _, _) => TermQueryType
    case EveryTermQuery(_, _, _) => EveryTermQueryType
    case OneOfTermQuery(_, _, _) => OneOfTermQueryType
    case AllQuery(_) => AllQueryType
  }

  /** Builds the leaf payload of a given leaf kind. */
  function MakeLeaf(t: QueryType, fieldIndex: nat, textIndex: nat, boost: real): (q: GoQuery)
    requires t != BoolQueryType && t != AllQueryType
    ensures IsLeaf(q) && KindOf(q) == t
    ensures q.fieldIndex == fieldIndex && q.textIndex == textIndex && q.boost == boost
  {
    match t
    case PhraseQueryType => PhraseQuery(fieldIndex, textIndex, boost)
    case PhrasePrefixQueryType => PhrasePrefixQuery(fieldIndex, textIndex, boost)
    case TermPrefixQueryType => TermPrefixQuery(fieldIndex, textIndex, boost)
    case TermQueryType => TermQuery(fieldIndex, textIndex, boost)
    case EveryTermQueryType => EveryTermQuery(fieldIndex, textIndex, boost)
    case OneOfTermQueryType => OneOfTermQuery(fieldIndex, textIndex, boost)
  }

  /** Every leaf payload is rebuilt by MakeLeaf from its own kind and fields. */
  lemma LeafIsMadeFromItsParts(q: GoQuery)
    requires IsLeaf(q)
    ensures MakeLeaf(KindOf(q), q.fieldIndex, q.textIndex, q.boost) == q
  {
  }
}
