/**
  The wire shape the decoder reads, written out as an encoder: the
  partner against which the decoder's round trip is proved.
*/
module WireEncoding {
  import opened Wrappers
  import opened Json
  import opened QueryModel
  import opened Serializers

  /** The members of a payload object, by kind. */
  function EncodePayload(q: GoQuery): (r: map<string, JValue>)
    decreases q
    ensures "boost" in r && r["boost"] == FloatNumber(q.boost)
  {
    match q
    case BoolQuery(subs, b) => map["subqueries" := JArr(EncodeElements(subs)), "boost" := FloatNumber(b)]
    case AllQuery(b) => map["boost" := FloatNumber(b)]
    case _ => map["field_index" := IntNumber(q.fieldIndex), "text_index" := IntNumber(q.textIndex), "boost" := FloatNumber(q.boost)]
  }

  /** One clause object; a missing payload leaves out `query_type` and `query`. */
  function EncodeElement(e: QueryElement): (r: JValue)
    decreases e
    ensures r.JObj? && "query_modifier" in r.fields
  {
    var base := map["query_modifier" := JUInt(ModifierCode(e.modifier))];
    match e.query
    case None => JObj(base)
    case Some(q) =>
      JObj(base["query_type" := JUInt(QueryTypeCode(KindOf(q)))]["query" := JObj(EncodePayload(q))])
  }

  function EncodeElements(es: seq<QueryElement>): (r: seq<JValue>)
    decreases es
    ensures |r| == |es|
  {
    if |es| == 0 then [] else [EncodeElement(es[0])] + EncodeElements(es[1..])
  }

  function EncodeStrings(ss: seq<string>): (r: JValue)
    ensures r.JArr? && |r.items| == |ss|
    ensures forall i :: 0 <= i < |ss| ==> r.items[i] == JStr(ss[i])
  {
    JArr(seq(|ss|, i requires 0 <= i < |ss| => JStr(ss[i])))
  }

  function EncodeFinalQuery(fq: FinalQuery): JValue
  {
    JObj(map[
      "texts" := EncodeStrings(fq.texts),
      "fields" := EncodeStrings(fq.fields),
      "query" := JObj(map["subqueries" := JArr(EncodeElements(fq.query.subqueries))])])
  }

  /** The same document written as the positional array the derived decoder also reads. */
  function EncodeFinalQueryPositional(fq: FinalQuery): JValue
  {
    JArr([EncodeStrings(fq.texts), EncodeStrings(fq.fields), JArr([JArr(EncodeElements(fq.query.subqueries))])])
  }

  /** What the wire can carry: a payload everywhere and `u64`-sized indices. */
  predicate Encodable(e: QueryElement)
    decreases e
  {
    match e.query
    case None => false
    case Some(q) => PayloadEncodable(q)
  }

  predicate PayloadEncodable(q: GoQuery)
    decreases q
  {
    match q
    case BoolQuery(subs, _) => AllEncodable(subs)
    case AllQuery(_) => true
    case _ => q.fieldIndex < U64_LIMIT && q.textIndex < U64_LIMIT
  }

  predicate AllEncodable(es: seq<QueryElement>)
    decreases es
  {
    |es| == 0 || (Encodable(es[0]) && AllEncodable(es[1..]))
  }

  /** A group clause decodes back once its children do. */
  lemma {:induction false} GroupRoundTrip(subs: seq<QueryElement>, boost: real, modifier: QueryModifier)
    requires DecodeElements(EncodeElements(subs)) == Ok(subs)
    ensures var e := QueryElement(Some(BoolQuery(subs, boost)), modifier);
            DecodeElement(EncodeElement(e)) == Ok(e)
  {
    var v := EncodeElement(QueryElement(Some(BoolQuery(subs, boost)), modifier));
    assert DecodeModifier(v) == Ok(modifier);
    assert DecodeQueryType(v) == Ok(BoolQueryType);
  }

  /** A match-all clause decodes back. */
  lemma {:induction false} AllRoundTrip(e: QueryElement)
    requires e.query.Some? && e.query.value.AllQuery?
    ensures DecodeElement(EncodeElement(e)) == Ok(e)
  {
    var v := EncodeElement(e);
    assert DecodeModifier(v) == Ok(e.modifier);
    assert DecodeQueryType(v) == Ok(AllQueryType);
  }

  /** A leaf clause decodes back when its indices fit in `u64`. */
  lemma {:induction false} LeafRoundTrip(e: QueryElement)
    requires e.query.Some? && IsLeaf(e.query.value)
    requires e.query.value.fieldIndex < U64_LIMIT && e.query.value.textIndex < U64_LIMIT
    ensures DecodeElement(EncodeElement(e)) == Ok(e)
  {
    var q := e.query.value;
    var v := EncodeElement(e);
    assert DecodeModifier(v) == Ok(e.modifier);
    assert DecodeQueryType(v) == Ok(KindOf(q));
    LeafIsMadeFromItsParts(q);
  }

  /** Decoding an encoded clause gives the clause back. */
  lemma {:induction false} ElementRoundTrip(e: QueryElement)
    requires Encodable(e)
    ensures DecodeElement(EncodeElement(e)) == Ok(e)
    decreases e, 1
  {
    match e.query.value
    case BoolQuery(subs, b) =>
      ElementsRoundTrip(subs);
      GroupRoundTrip(subs, b, e.modifier);
    case AllQuery(b) =>
      AllRoundTrip(e);
    case _ =>
      LeafRoundTrip(e);
  }

  lemma {:induction false} ElementsRoundTrip(es: seq<QueryElement>)
    requires AllEncodable(es)
    ensures DecodeElements(EncodeElements(es)) == Ok(es)
    decreases es, 0
  {
    if |es| > 0 {
      ElementRoundTrip(es[0]);
      ElementsRoundTrip(es[1..]);
      var enc := EncodeElements(es);
      assert enc[0] == EncodeElement(es[0]);
      assert enc[1..] == EncodeElements(es[1..]);
      assert [es[0]] + es[1..] == es;
    }
  }

  lemma StringsRoundTrip(ss: seq<string>)
    ensures DecodeStrings(EncodeStrings(ss)) == Ok(ss)
  {
    var r := DecodeStrings(EncodeStrings(ss));
    assert r.Ok?;
    assert r.value == ss;
  }

  /** Decoding an encoded document gives the document back, indices unrenumbered. */
  lemma FinalQueryRoundTrip(fq: FinalQuery)
    requires AllEncodable(fq.query.subqueries)
    ensures DecodeFinalQuery(EncodeFinalQuery(fq)) == Ok(fq)
  {
    var m := EncodeFinalQuery(fq).fields;
    StringsRoundTrip(fq.texts);
    StringsRoundTrip(fq.fields);
    ElementsRoundTrip(fq.query.subqueries);
    assert m["texts"] == EncodeStrings(fq.texts);
    assert m["fields"] == EncodeStrings(fq.fields);
    assert m["query"] == JObj(map["subqueries" := JArr(EncodeElements(fq.query.subqueries))]);
  }

  /** The positional form decodes to the same document as the object form. */
  lemma PositionalRoundTrip(fq: FinalQuery)
    requires AllEncodable(fq.query.subqueries)
    ensures DecodeFinalQuery(EncodeFinalQueryPositional(fq)) == Ok(fq)
  {
    var v := EncodeFinalQueryPositional(fq);
    StringsRoundTrip(fq.texts);
    StringsRoundTrip(fq.fields);
    ElementsRoundTrip(fq.query.subqueries);
    assert DecodeRootQuery(v.items[2]) == Ok(fq.query);
  }
}
