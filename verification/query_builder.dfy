/**
  The Go `QueryBuilder` callers use to assemble a structured query: a text
  table and a field table that intern strings to indices, an ordered list
  of clauses, and the JSON document `encoding/json` writes for the built
  query. Each Go method that mutates its receiver is a function returning
  the new builder (and the index it returned, where it returns one).

  The builder as written has three defects, each modelled as written and
  next to a corrected version: `AddField` records field indices in the
  text table, `BooleanQuery` keeps the sub-builder's indices although they
  point into the sub-builder's own tables, and a nested group is written
  without the `boost` member the decoder insists on.
*/
module SearchQueryBuilder {
  import opened Wrappers
  import opened Json
  import QueryModel
  import Serializers
  import WireEncoding
  import Convert

  /** The Go `QueryType` constants, in `iota` order. */
  const BoolQueryCode: int := 0
  const PhraseQueryCode: int := 1
  const PhrasePrefixQueryCode: int := 2
  const SingleTermPrefixQueryCode: int := 3
  const NoneCode: int := 4

  /** The Go `QueryModifier` constants, in `iota` order. */
  const MustCode: int := 0
  const ShouldCode: int := 1
  const MustNotCode: int := 2

  /** The two implementations of the Go `Query` interface. */
  datatype Payload =
    | FieldQuery(fieldIndex: int, textIndex: int, boost: real)
    | BooleanQuery(subqueries: seq<Element>)

  /** One clause; the Go modifier and type are plain `int`s. */
  datatype Element = Element(query: Payload, modifier: int, queryType: int)

  /** What `Build` returns: the two tables and the root clauses. */
  datatype FinalQuery = FinalQuery(texts: seq<string>, fields: seq<string>, subqueries: seq<Element>)

  datatype QueryBuilder = QueryBuilder(
    texts: map<string, int>,
    fields: map<string, int>,
    textList: seq<string>,
    fieldList: seq<string>,
    subqueries: seq<Element>)

  /** `m` and `list` index each other: `list[m[t]] == t` and `m[list[i]] == i`. */
  predicate Interns(m: map<string, int>, list: seq<string>) {
    && (forall t :: t in m ==> 0 <= m[t] < |list| && list[m[t]] == t)
    && (forall i :: 0 <= i < |list| ==> list[i] in m && m[list[i]] == i)
  }

  // ---------------------------------------------------------------------
  // Clause meaning: the indices of a clause read against a pair of tables
  // ---------------------------------------------------------------------

  /** What a clause names once its indices are looked up. */
  datatype Target =
    | On(field: string, text: string, boost: real)
    | Nested(clauses: seq<Resolved>)
    | Dangling

  datatype Resolved = Resolved(target: Target, modifier: int, queryType: int)

  /** Every index of the clause, at any depth, points into the tables. */
  predicate InRange(e: Element, texts: seq<string>, fields: seq<string>)
    decreases e
  {
    match e.query
    case FieldQuery(fi, ti, _) => 0 <= fi < |fields| && 0 <= ti < |texts|
    case BooleanQuery(subs) => forall i :: 0 <= i < |subs| ==> InRange(subs[i], texts, fields)
  }

  predicate AllInRange(es: seq<Element>, texts: seq<string>, fields: seq<string>) {
    forall i :: 0 <= i < |es| ==> InRange(es[i], texts, fields)
  }

  function Resolve(e: Element, texts: seq<string>, fields: seq<string>): (r: Resolved)
    decreases e
    ensures r.modifier == e.modifier && r.queryType == e.queryType
    ensures r.target.Dangling? <==> e.query.FieldQuery? && !InRange(e, texts, fields)
  {
    match e.query
    case FieldQuery(fi, ti, boost) =>
      if 0 <= fi < |fields| && 0 <= ti < |texts| then Resolved(On(fields[fi], texts[ti], boost), e.modifier, e.queryType)
      else Resolved(Dangling, e.modifier, e.queryType)
    case BooleanQuery(subs) => Resolved(Nested(ResolveAll(subs, texts, fields)), e.modifier, e.queryType)
  }

  function ResolveAll(es: seq<Element>, texts: seq<string>, fields: seq<string>): (r: seq<Resolved>)
    decreases es
    ensures |r| == |es|
  {
    seq(|es|, i requires 0 <= i < |es| => Resolve(es[i], texts, fields))
  }

  /** What a built query asks for, clause by clause. */
  function Meaning(fq: FinalQuery): seq<Resolved> {
    ResolveAll(fq.subqueries, fq.texts, fq.fields)
  }

  /** A clause keeps its meaning when the tables only grow at the end. */
  lemma {:induction false} ResolveExtends(e: Element, texts: seq<string>, fields: seq<string>,
                                          texts': seq<string>, fields': seq<string>)
    requires InRange(e, texts, fields) && texts <= texts' && fields <= fields'
    ensures InRange(e, texts', fields')
    ensures Resolve(e, texts', fields') == Resolve(e, texts, fields)
    decreases e, 1
  {
    match e.query
    case FieldQuery(_, _, _) =>
    case BooleanQuery(subs) =>
      ResolveAllExtends(subs, texts, fields, texts', fields');
  }

  lemma {:induction false} ResolveAllExtends(es: seq<Element>, texts: seq<string>, fields: seq<string>,
                                             texts': seq<string>, fields': seq<string>)
    requires AllInRange(es, texts, fields) && texts <= texts' && fields <= fields'
    ensures AllInRange(es, texts', fields')
    ensures ResolveAll(es, texts', fields') == ResolveAll(es, texts, fields)
    decreases es, 0
  {
    forall i | 0 <= i < |es|
      ensures InRange(es[i], texts', fields') && Resolve(es[i], texts', fields') == Resolve(es[i], texts, fields)
    {
      ResolveExtends(es[i], texts, fields, texts', fields');
    }
  }

  /** The state every corrected history keeps. */
  predicate Consistent(b: QueryBuilder) {
    && Interns(b.texts, b.textList)
    && Interns(b.fields, b.fieldList)
    && AllInRange(b.subqueries, b.textList, b.fieldList)
  }

  // ---------------------------------------------------------------------
  // The builder as written
  // ---------------------------------------------------------------------

  /** `NewQueryBuilder`; `fields` is left nil, which Go reads as an empty map. */
  function NewQueryBuilder(): (b: QueryBuilder)
    ensures Consistent(b) && b.fields == map[]
  {
    QueryBuilder(map[], map[], [], [], [])
  }

  /**
    `AddText`: a text already in the table returns its index and changes
    nothing; a new one is appended and gets the old length of the list.
  */
  function AddText(b: QueryBuilder, text: string): (r: (QueryBuilder, int))
    ensures text in b.texts ==> r == (b, b.texts[text])
    ensures text !in b.texts ==> r.1 == |b.textList| && r.0.textList == b.textList + [text]
    ensures r.0.fields == b.fields && r.0.fieldList == b.fieldList && r.0.subqueries == b.subqueries
    ensures Interns(b.texts, b.textList) ==>
              && Interns(r.0.texts, r.0.textList) && b.textList <= r.0.textList
              && 0 <= r.1 < |r.0.textList| && r.0.textList[r.1] == text
  {
    if text in b.texts then (b, b.texts[text])
    else
      var idx := |b.textList|;
      (b.(texts := b.texts[text := idx], textList := b.textList + [text]), idx)
  }

  /**
    `AddField` as written: it looks the name up in `fields` but records the
    new index in `texts`, so `fields` never gains an entry and every call
    appends.
  */
  function AddField(b: QueryBuilder, field: string): (r: (QueryBuilder, int))
    ensures field in b.fields ==> r == (b, b.fields[field])
    ensures field !in b.fields ==> r.1 == |b.fieldList| && r.0.fieldList == b.fieldList + [field]
    ensures field !in b.fields ==> field in r.0.texts && r.0.texts[field] == r.1
    ensures r.0.fields == b.fields && r.0.textList == b.textList && r.0.subqueries == b.subqueries
  {
    if field in b.fields then (b, b.fields[field])
    else
      var idx := |b.fieldList|;
      (b.(texts := b.texts[field := idx], fieldList := b.fieldList + [field]), idx)
  }

  /** `Query` as written: intern the text, then the field, then append one clause. */
  function Query(b: QueryBuilder, modifier: int, field: string, text: string, queryType: int, boost: real): (r: QueryBuilder)
    ensures |r.subqueries| == |b.subqueries| + 1 && r.subqueries[..|b.subqueries|] == b.subqueries
    ensures r.fields == b.fields
    ensures var e := r.subqueries[|b.subqueries|];
            && e.modifier == modifier && e.queryType == queryType && e.query.FieldQuery?
            && e.query.boost == boost
            && e.query.textIndex == (if text in b.texts then b.texts[text] else |b.textList|)
            && (b.fields == map[] ==> e.query.fieldIndex == |b.fieldList| && r.fieldList == b.fieldList + [field])
  {
    var (b1, textIndex) := AddText(b, text);
    var (b2, fieldIndex) := AddField(b1, field);
    b2.(subqueries := b2.subqueries + [Element(FieldQuery(fieldIndex, textIndex, boost), modifier, queryType)])
  }

  /** `BooleanQuery` as written: one group clause holding the sub-builder's clauses untouched. */
  function BooleanQuery(b: QueryBuilder, modifier: int, sub: QueryBuilder): (r: QueryBuilder)
    ensures r.texts == b.texts && r.fields == b.fields && r.textList == b.textList && r.fieldList == b.fieldList
    ensures r.subqueries == b.subqueries + [Element(Payload.BooleanQuery(sub.subqueries), modifier, BoolQueryCode)]
  {
    b.(subqueries := b.subqueries + [Element(Payload.BooleanQuery(sub.subqueries), modifier, BoolQueryCode)])
  }

  /** `Build`: the tables in insertion order and the root clauses. */
  function Build(b: QueryBuilder): FinalQuery
  {
    FinalQuery(b.textList, b.fieldList, b.subqueries)
  }

  /** A builder that only ever ran the methods as written never gains a `fields` entry. */
  lemma FieldsNeverWritten(b: QueryBuilder, modifier: int, field: string, text: string, queryType: int, boost: real,
                           sub: QueryBuilder)
    requires b.fields == map[]
    ensures AddField(b, field).0.fields == map[] && AddField(b, field).1 == |b.fieldList|
    ensures Query(b, modifier, field, text, queryType, boost).fields == map[]
    ensures BooleanQuery(b, modifier, sub).fields == map[]
  {
  }

  /** The same field twice gets two entries in the field list. */
  lemma FieldsDuplicated()
    ensures var b := Query(Query(NewQueryBuilder(), MustCode, "title", "a", PhraseQueryCode, 1.0),
                           MustCode, "title", "b", PhraseQueryCode, 1.0);
            Build(b).fields == ["title", "title"]
  {
  }

  /**
    The text table as written: searching field "title" for "foo" and then
    field "body" for "title" makes the second clause search "body" for
    "foo", because the field name "title" was recorded in the text table
    with field index 0, which is the text index of "foo".
  */
  lemma FieldNameShadowsText()
    ensures var b1 := Query(NewQueryBuilder(), MustCode, "title", "foo", PhraseQueryCode, 1.0);
            var b2 := Query(b1, MustCode, "body", "title", PhraseQueryCode, 1.0);
            && !Interns(b1.texts, b1.textList)
            && Meaning(Build(b2)) == [Resolved(On("title", "foo", 1.0), MustCode, PhraseQueryCode),
                                      Resolved(On("body", "foo", 1.0), MustCode, PhraseQueryCode)]
  {
    var b1 := Query(NewQueryBuilder(), MustCode, "title", "foo", PhraseQueryCode, 1.0);
    assert b1.texts == map["foo" := 0, "title" := 0];
    assert b1.textList == ["foo"];
    assert b1.textList[b1.texts["title"]] != "title";
    var b2 := Query(b1, MustCode, "body", "title", PhraseQueryCode, 1.0);
    assert b2.textList == ["foo"];
    assert b2.fieldList == ["title", "body"];
    assert b2.subqueries == [Element(FieldQuery(0, 0, 1.0), MustCode, PhraseQueryCode),
                             Element(FieldQuery(1, 0, 1.0), MustCode, PhraseQueryCode)];
    assert !Interns(b1.texts, b1.textList);
    var m := Meaning(Build(b2));
    assert |m| == 2;
    assert m[0] == Resolve(b2.subqueries[0], b2.textList, b2.fieldList);
    assert m[1] == Resolve(b2.subqueries[1], b2.textList, b2.fieldList);
    assert m[0] == Resolved(On("title", "foo", 1.0), MustCode, PhraseQueryCode);
    assert m[1] == Resolved(On("body", "foo", 1.0), MustCode, PhraseQueryCode);
  }

  /**
    Nested groups as written: the sub-builder's clause points at index 0 of
    the sub-builder's own tables, but it is read against the parent's, so
    "search body for bar" turns into "search title for foo".
  */
  lemma NestedIndicesMisread()
    ensures var parent := Query(NewQueryBuilder(), MustCode, "title", "foo", PhraseQueryCode, 1.0);
            var sub := Query(NewQueryBuilder(), MustCode, "body", "bar", PhraseQueryCode, 1.0);
            && Meaning(Build(sub)) == [Resolved(On("body", "bar", 1.0), MustCode, PhraseQueryCode)]
            && Meaning(Build(BooleanQuery(parent, ShouldCode, sub)))[1]
               == Resolved(Nested([Resolved(On("title", "foo", 1.0), MustCode, PhraseQueryCode)]), ShouldCode, BoolQueryCode)
  {
    var parent := Query(NewQueryBuilder(), MustCode, "title", "foo", PhraseQueryCode, 1.0);
    var sub := Query(NewQueryBuilder(), MustCode, "body", "bar", PhraseQueryCode, 1.0);
    assert parent.textList == ["foo"] && parent.fieldList == ["title"];
    assert sub.textList == ["bar"] && sub.fieldList == ["body"];
    var inner := Element(FieldQuery(0, 0, 1.0), MustCode, PhraseQueryCode);
    assert sub.subqueries == [inner];
    var r := BooleanQuery(parent, ShouldCode, sub);
    assert r.subqueries[1] == Element(Payload.BooleanQuery([inner]), ShouldCode, BoolQueryCode);
    assert ResolveAll([inner], r.textList, r.fieldList) == [Resolved(On("title", "foo", 1.0), MustCode, PhraseQueryCode)];
    assert Meaning(Build(r))[1] == Resolve(r.subqueries[1], r.textList, r.fieldList);
    assert ResolveAll([inner], sub.textList, sub.fieldList) == [Resolved(On("body", "bar", 1.0), MustCode, PhraseQueryCode)];
  }

  // ---------------------------------------------------------------------
  // The corrected builder
  // ---------------------------------------------------------------------

  /**
    `AddField` recording the index in `fields` (which the Go constructor
    must then allocate): the field table interns exactly as the text table
    does, and the text table is left alone.
  */
  function AddFieldFixed(b: QueryBuilder, field: string): (r: (QueryBuilder, int))
    ensures field in b.fields ==> r == (b, b.fields[field])
    ensures field !in b.fields ==> r.1 == |b.fieldList| && r.0.fieldList == b.fieldList + [field]
    ensures r.0.texts == b.texts && r.0.textList == b.textList && r.0.subqueries == b.subqueries
    ensures Interns(b.fields, b.fieldList) ==>
              && Interns(r.0.fields, r.0.fieldList) && b.fieldList <= r.0.fieldList
              && 0 <= r.1 < |r.0.fieldList| && r.0.fieldList[r.1] == field
  {
    if field in b.fields then (b, b.fields[field])
    else
      var idx := |b.fieldList|;
      (b.(fields := b.fields[field := idx], fieldList := b.fieldList + [field]), idx)
  }

  function QueryFixed(b: QueryBuilder, modifier: int, field: string, text: string, queryType: int, boost: real): QueryBuilder
  {
    var (b1, textIndex) := AddText(b, text);
    var (b2, fieldIndex) := AddFieldFixed(b1, field);
    b2.(subqueries := b2.subqueries + [Element(FieldQuery(fieldIndex, textIndex, boost), modifier, queryType)])
  }

  /**
    The corrected `Query` keeps the builder consistent, leaves the meaning
    of every earlier clause alone and adds one clause meaning exactly what
    was asked for.
  */
  lemma QueryFixedMeansWhatWasAsked(b: QueryBuilder, modifier: int, field: string, text: string, queryType: int, boost: real)
    requires Consistent(b)
    ensures var r := QueryFixed(b, modifier, field, text, queryType, boost);
            && Consistent(r)
            && Meaning(Build(r)) == Meaning(Build(b)) + [Resolved(On(field, text, boost), modifier, queryType)]
  {
    var (b1, ti) := AddText(b, text);
    var (b2, fi) := AddFieldFixed(b1, field);
    var r := QueryFixed(b, modifier, field, text, queryType, boost);
    var e := Element(FieldQuery(fi, ti, boost), modifier, queryType);
    assert r.subqueries == b.subqueries + [e];
    ResolveAllExtends(b.subqueries, b.textList, b.fieldList, r.textList, r.fieldList);
    assert InRange(e, r.textList, r.fieldList);
    assert ResolveAll(r.subqueries, r.textList, r.fieldList)
        == ResolveAll(b.subqueries, r.textList, r.fieldList) + [Resolve(e, r.textList, r.fieldList)];
  }

  /**
    Copies a sub-builder's clauses into `b`, interning each text and field
    they point at into `b`'s tables and rewriting the indices.
  */
  function ReinternElement(b: QueryBuilder, e: Element, texts: seq<string>, fields: seq<string>): (QueryBuilder, Element)
    decreases e
  {
    match e.query
    case FieldQuery(fi, ti, boost) =>
      if 0 <= fi < |fields| && 0 <= ti < |texts| then
        var (b1, textIndex) := AddText(b, texts[ti]);
        var (b2, fieldIndex) := AddFieldFixed(b1, fields[fi]);
        (b2, Element(FieldQuery(fieldIndex, textIndex, boost), e.modifier, e.queryType))
      else (b, e)
    case BooleanQuery(subs) =>
      var (b1, subs') := ReinternAll(b, subs, texts, fields);
      (b1, Element(Payload.BooleanQuery(subs'), e.modifier, e.queryType))
  }

  function ReinternAll(b: QueryBuilder, es: seq<Element>, texts: seq<string>, fields: seq<string>): (r: (QueryBuilder, seq<Element>))
    decreases es
    ensures |r.1| == |es|
  {
    if |es| == 0 then (b, [])
    else
      var (b1, e') := ReinternElement(b, es[0], texts, fields);
      var (b2, rest) := ReinternAll(b1, es[1..], texts, fields);
      (b2, [e'] + rest)
  }

  /** `BooleanQuery` merging the sub-builder's tables into the parent's. */
  function BooleanQueryFixed(b: QueryBuilder, modifier: int, sub: QueryBuilder): QueryBuilder
  {
    var (b1, subs) := ReinternAll(b, sub.subqueries, sub.textList, sub.fieldList);
    b1.(subqueries := b1.subqueries + [Element(Payload.BooleanQuery(subs), modifier, BoolQueryCode)])
  }

  /** The interning tables grow at the end and stay inverse to each other. */
  predicate GrowsFrom(b: QueryBuilder, b': QueryBuilder) {
    && Interns(b'.texts, b'.textList) && Interns(b'.fields, b'.fieldList)
    && b.textList <= b'.textList && b.fieldList <= b'.fieldList
    && b'.subqueries == b.subqueries
  }

  lemma {:induction false} ReinternElementKeepsMeaning(b: QueryBuilder, e: Element, texts: seq<string>, fields: seq<string>)
    requires Interns(b.texts, b.textList) && Interns(b.fields, b.fieldList)
    requires InRange(e, texts, fields)
    ensures var (b', e') := ReinternElement(b, e, texts, fields);
            && GrowsFrom(b, b')
            && InRange(e', b'.textList, b'.fieldList)
            && Resolve(e', b'.textList, b'.fieldList) == Resolve(e, texts, fields)
    decreases e, 1
  {
    match e.query
    case FieldQuery(fi, ti, boost) =>
    case BooleanQuery(subs) =>
      ReinternAllKeepsMeaning(b, subs, texts, fields);
  }

  lemma {:induction false} ReinternAllKeepsMeaning(b: QueryBuilder, es: seq<Element>, texts: seq<string>, fields: seq<string>)
    requires Interns(b.texts, b.textList) && Interns(b.fields, b.fieldList)
    requires AllInRange(es, texts, fields)
    ensures var (b', es') := ReinternAll(b, es, texts, fields);
            && GrowsFrom(b, b')
            && AllInRange(es', b'.textList, b'.fieldList)
            && ResolveAll(es', b'.textList, b'.fieldList) == ResolveAll(es, texts, fields)
    decreases es, 0
  {
    if |es| > 0 {
      var (b1, e') := ReinternElement(b, es[0], texts, fields);
      ReinternElementKeepsMeaning(b, es[0], texts, fields);
      assert AllInRange(es[1..], texts, fields) by {
        forall i | 0 <= i < |es[1..]| ensures InRange(es[1..][i], texts, fields) {
          assert es[1..][i] == es[i + 1];
        }
      }
      var (b2, rest) := ReinternAll(b1, es[1..], texts, fields);
      ReinternAllKeepsMeaning(b1, es[1..], texts, fields);
      ResolveExtends(e', b1.textList, b1.fieldList, b2.textList, b2.fieldList);
      var out := [e'] + rest;
      assert ReinternAll(b, es, texts, fields) == (b2, out);
      forall i | 0 <= i < |out|
        ensures InRange(out[i], b2.textList, b2.fieldList)
        ensures Resolve(out[i], b2.textList, b2.fieldList) == Resolve(es[i], texts, fields)
      {
        if i > 0 {
          assert out[i] == rest[i - 1] && es[i] == es[1..][i - 1];
          assert ResolveAll(rest, b2.textList, b2.fieldList)[i - 1] == ResolveAll(es[1..], texts, fields)[i - 1];
        }
      }
    }
  }

  /**
    The corrected `BooleanQuery` keeps the builder consistent, leaves every
    earlier clause alone and adds one group whose clauses mean what they
    meant in the sub-builder.
  */
  lemma BooleanQueryFixedMeansWhatWasAsked(b: QueryBuilder, modifier: int, sub: QueryBuilder)
    requires Consistent(b) && Consistent(sub)
    ensures var r := BooleanQueryFixed(b, modifier, sub);
            && Consistent(r)
            && Meaning(Build(r)) == Meaning(Build(b)) + [Resolved(Nested(Meaning(Build(sub))), modifier, BoolQueryCode)]
  {
    var (b1, subs) := ReinternAll(b, sub.subqueries, sub.textList, sub.fieldList);
    ReinternAllKeepsMeaning(b, sub.subqueries, sub.textList, sub.fieldList);
    var e := Element(Payload.BooleanQuery(subs), modifier, BoolQueryCode);
    var r := BooleanQueryFixed(b, modifier, sub);
    assert r.subqueries == b.subqueries + [e];
    ResolveAllExtends(b.subqueries, b.textList, b.fieldList, r.textList, r.fieldList);
    assert InRange(e, r.textList, r.fieldList);
    assert ResolveAll(r.subqueries, r.textList, r.fieldList)
        == ResolveAll(b.subqueries, r.textList, r.fieldList) + [Resolve(e, r.textList, r.fieldList)];
  }

  // ---------------------------------------------------------------------
  // The JSON document, as written and corrected
  // ---------------------------------------------------------------------

  /**
    The JSON `encoding/json` writes for a clause payload. As written, a
    group has only `subqueries`; `corrected` adds the `boost` member (1)
    that the decoder requires of every group.
  */
  function EncodePayload(p: Payload, corrected: bool): (r: JValue)
    decreases p
    ensures r.JObj?
    ensures p.FieldQuery? ==>
              && Get(r, "field_index") == Some(IntNumber(p.fieldIndex))
              && Get(r, "text_index") == Some(IntNumber(p.textIndex))
              && Get(r, "boost") == Some(FloatNumber(p.boost))
    ensures p.BooleanQuery? ==> ("boost" in r.fields <==> corrected)
  {
    match p
    case FieldQuery(fi, ti, boost) =>
      JObj(map["field_index" := IntNumber(fi), "text_index" := IntNumber(ti), "boost" := FloatNumber(boost)])
    case BooleanQuery(subs) =>
      if corrected then JObj(map["subqueries" := JArr(EncodeElements(subs, corrected)), "boost" := FloatNumber(1.0)])
      else JObj(map["subqueries" := JArr(EncodeElements(subs, corrected))])
  }

  function EncodeElement(e: Element, corrected: bool): (r: JValue)
    decreases e
    ensures Get(r, "query_modifier") == Some(IntNumber(e.modifier))
    ensures Get(r, "query_type") == Some(IntNumber(e.queryType))
    ensures Get(r, "query") == Some(EncodePayload(e.query, corrected))
  {
    JObj(map["query" := EncodePayload(e.query, corrected),
             "query_modifier" := IntNumber(e.modifier),
             "query_type" := IntNumber(e.queryType)])
  }

  function EncodeElements(es: seq<Element>, corrected: bool): (r: seq<JValue>)
    decreases es
    ensures |r| == |es|
  {
    seq(|es|, i requires 0 <= i < |es| => EncodeElement(es[i], corrected))
  }

  /**
    The document for a built query. As written, a builder that never added
    a field leaves `fieldList` nil, which is written as `null`; corrected,
    the list starts out empty like `textList`.
  */
  function EncodeFinalQuery(fq: FinalQuery, corrected: bool): (r: JValue)
    ensures Get(r, "fields") == Some(if |fq.fields| == 0 && !corrected then JNull else WireEncoding.EncodeStrings(fq.fields))
  {
    JObj(map[
      "texts" := WireEncoding.EncodeStrings(fq.texts),
      "fields" := if |fq.fields| == 0 && !corrected then JNull else WireEncoding.EncodeStrings(fq.fields),
      "query" := JObj(map["subqueries" := JArr(EncodeElements(fq.subqueries, corrected))])])
  }

  // ---------------------------------------------------------------------
  // What the decoder makes of it
  // ---------------------------------------------------------------------

  /**
    The Go codes name decoder kinds in the same order; the Go `None` (4)
    is the decoder's term query.
  */
  lemma GoCodesDecode()
    ensures Serializers.QueryTypeFromU64(BoolQueryCode) == Some(QueryModel.BoolQueryType)
    ensures Serializers.QueryTypeFromU64(PhraseQueryCode) == Some(QueryModel.PhraseQueryType)
    ensures Serializers.QueryTypeFromU64(PhrasePrefixQueryCode) == Some(QueryModel.PhrasePrefixQueryType)
    ensures Serializers.QueryTypeFromU64(SingleTermPrefixQueryCode) == Some(QueryModel.TermPrefixQueryType)
    ensures Serializers.QueryTypeFromU64(NoneCode) == Some(QueryModel.TermQueryType)
    ensures Serializers.QueryModifierFromU64(MustCode) == Some(QueryModel.Must)
    ensures Serializers.QueryModifierFromU64(ShouldCode) == Some(QueryModel.Should)
    ensures Serializers.QueryModifierFromU64(MustNotCode) == Some(QueryModel.MustNot)
  {
  }

  /**
    A clause the decoder reads back faithfully: a known modifier, a group
    typed as a group, and a leaf typed as one of the leaf kinds before the
    match-all kind (code 7 is read as a match-all that drops the indices).
  */
  predicate Translatable(e: Element)
    decreases e
  {
    && 0 <= e.modifier < 3
    && match e.query
       case FieldQuery(fi, ti, _) =>
         1 <= e.queryType < 7 && 0 <= fi < U64_LIMIT && 0 <= ti < U64_LIMIT
       case BooleanQuery(subs) =>
         e.queryType == BoolQueryCode && forall i :: 0 <= i < |subs| ==> Translatable(subs[i])
  }

  /** The decoder's clause for a Go clause; a group gets the corrected boost 1. */
  function Translate(e: Element): (r: QueryModel.QueryElement)
    requires Translatable(e)
    decreases e
    ensures r.query.Some?
  {
    var modifier := Serializers.QueryModifierFromU64(e.modifier).value;
    match e.query
    case FieldQuery(fi, ti, boost) =>
      var t := Serializers.QueryTypeFromU64(e.queryType).value;
      QueryModel.QueryElement(Some(QueryModel.MakeLeaf(t, fi, ti, boost)), modifier)
    case BooleanQuery(subs) =>
      QueryModel.QueryElement(Some(QueryModel.BoolQuery(TranslateAll(subs), 1.0)), modifier)
  }

  function TranslateAll(es: seq<Element>): (r: seq<QueryModel.QueryElement>)
    requires forall i :: 0 <= i < |es| ==> Translatable(es[i])
    decreases es
    ensures |r| == |es|
  {
    seq(|es|, i requires 0 <= i < |es| => Translate(es[i]))
  }

  function TranslateFinal(fq: FinalQuery): QueryModel.FinalQuery
    requires forall i :: 0 <= i < |fq.subqueries| ==> Translatable(fq.subqueries[i])
  {
    QueryModel.FinalQuery(fq.texts, fq.fields, QueryModel.RootBoolQuery(TranslateAll(fq.subqueries)))
  }

  /** The corrected Go encoder writes exactly the wire shape of the translated clause. */
  lemma {:induction false} ElementEncodingAgrees(e: Element)
    requires Translatable(e)
    ensures EncodeElement(e, true) == WireEncoding.EncodeElement(Translate(e))
    ensures WireEncoding.Encodable(Translate(e))
    decreases e, 1
  {
    var t := Translate(e);
    Serializers.ModifierCodeBijection(t.modifier, e.modifier);
    assert IntNumber(e.modifier) == JUInt(Serializers.ModifierCode(t.modifier));
    match e.query
    case FieldQuery(fi, ti, boost) =>
      Serializers.QueryTypeCodeBijection(QueryModel.KindOf(t.query.value), e.queryType);
      assert IntNumber(e.queryType) == JUInt(Serializers.QueryTypeCode(QueryModel.KindOf(t.query.value)));
    case BooleanQuery(subs) =>
      ElementsEncodingAgree(subs);
  }

  lemma {:induction false} ElementsEncodingAgree(es: seq<Element>)
    requires forall i :: 0 <= i < |es| ==> Translatable(es[i])
    ensures EncodeElements(es, true) == WireEncoding.EncodeElements(TranslateAll(es))
    ensures WireEncoding.AllEncodable(TranslateAll(es))
    decreases es, 0
  {
    if |es| > 0 {
      ElementEncodingAgrees(es[0]);
      ElementsEncodingAgree(es[1..]);
      assert EncodeElements(es, true) == [EncodeElement(es[0], true)] + EncodeElements(es[1..], true);
      assert TranslateAll(es) == [Translate(es[0])] + TranslateAll(es[1..]);
      assert TranslateAll(es)[1..] == TranslateAll(es[1..]);
    }
  }

  /**
    With the corrected encoder every built query of translatable clauses
    decodes, unrenumbered, to its translation.
  */
  lemma CorrectedDocumentDecodes(fq: FinalQuery)
    requires forall i :: 0 <= i < |fq.subqueries| ==> Translatable(fq.subqueries[i])
    ensures EncodeFinalQuery(fq, true) == WireEncoding.EncodeFinalQuery(TranslateFinal(fq))
    ensures Serializers.DecodeFinalQuery(EncodeFinalQuery(fq, true)) == Ok(TranslateFinal(fq))
  {
    ElementsEncodingAgree(fq.subqueries);
    WireEncoding.FinalQueryRoundTrip(TranslateFinal(fq));
  }

  /** ... and what it compiles to is what the translated query compiles to. */
  lemma CorrectedDocumentCompiles(env: Convert.Env, fq: FinalQuery)
    requires forall i :: 0 <= i < |fq.subqueries| ==> Translatable(fq.subqueries[i])
    ensures Convert.ParseQueryFromJson(env, EncodeFinalQuery(fq, true)) == Convert.ConvertToTantivy(env, TranslateFinal(fq))
  {
    CorrectedDocumentDecodes(fq);
  }

  /** As written, a group clause never decodes; with a known modifier the error is the missing boost. */
  lemma GroupClauseRejected(e: Element)
    requires e.query.BooleanQuery? && e.queryType == BoolQueryCode
    ensures Serializers.DecodeElement(EncodeElement(e, false)).Err?
    ensures 0 <= e.modifier < 3 ==>
              Serializers.DecodeElement(EncodeElement(e, false)) == Err(Serializers.MissingField("boost"))
  {
  }

  /** ... so no document holding a group at its root decodes. */
  lemma AsWrittenGroupDocumentRejected(fq: FinalQuery, i: nat)
    requires i < |fq.subqueries| && fq.subqueries[i].query.BooleanQuery? && fq.subqueries[i].queryType == BoolQueryCode
    ensures Serializers.DecodeFinalQuery(EncodeFinalQuery(fq, false)).Err?
  {
    var v := EncodeFinalQuery(fq, false);
    var items := EncodeElements(fq.subqueries, false);
    GroupClauseRejected(fq.subqueries[i]);
    assert items[i] == EncodeElement(fq.subqueries[i], false);
    assert v.fields["query"] == JObj(map["subqueries" := JArr(items)]);
  }

  /** ... such as any query the builder nests a sub-builder into. */
  lemma NestedBuilderRejected(b: QueryBuilder, modifier: int, sub: QueryBuilder)
    ensures Serializers.DecodeFinalQuery(EncodeFinalQuery(Build(BooleanQuery(b, modifier, sub)), false)).Err?
  {
    AsWrittenGroupDocumentRejected(Build(BooleanQuery(b, modifier, sub)), |b.subqueries|);
  }

  /** As written, a builder with no clauses writes `fields: null`, which the decoder refuses. */
  lemma EmptyBuilderRejected()
    ensures Serializers.DecodeFinalQuery(EncodeFinalQuery(Build(NewQueryBuilder()), false)) == Err(Serializers.ExpectedSequence)
  {
  }
}
