/**
  The wire decoder: turns a serde_json value tree into the query AST.
  Integer codes select the clause kind and the modifier, each payload field
  has its own default-or-required rule, and nested groups decode recursively.
*/
module Serializers {
  import opened Wrappers
  import opened Json
  import opened QueryModel

  /** The decoder's failures, one per message it can produce. */
  datatype DecodeError =
    | MissingField(name: string)
    | InvalidQueryModifier
    | InvalidQueryType
    | ExpectedSequence
    | ExpectedString
    | ExpectedStruct
    | InvalidLength(index: nat)   // a struct written as an array with too few elements
    | TrailingElements            // a struct written as an array with too many

  /** `QueryType::from_u64`: codes 0..7 in declaration order, nothing else. */
  function QueryTypeFromU64(code: nat): (r: Option<QueryType>)
    ensures r.Some? <==> code < 8
  {
    match code
    case 0 => Some(BoolQueryType)
    case 1 => Some(PhraseQueryType)
    case 2 => Some(PhrasePrefixQueryType)
    case 3 => Some(TermPrefixQueryType)
    case 4 => Some(TermQueryType)
    case 5 => Some(EveryTermQueryType)
    case 6 => Some(OneOfTermQueryType)
    case 7 => Some(AllQueryType)
    case _ => None
  }

  /** `QueryModifier::from_u64`: 0, 1, 2 and nothing else. */
  function QueryModifierFromU64(code: nat): (r: Option<QueryModifier>)
    ensures r.Some? <==> code < 3
  {
    match code
    case 0 => Some(Must)
    case 1 => Some(Should)
    case 2 => Some(MustNot)
    case _ => None
  }

  /** The wire code of each clause kind (its declaration index). */
  function QueryTypeCode(t: QueryType): (code: nat)
    ensures code < 8
  {
    match t
    case BoolQueryType => 0
    case PhraseQueryType => 1
    case PhrasePrefixQueryType => 2
    case TermPrefixQueryType => 3
    case TermQueryType => 4
    case EveryTermQueryType => 5
    case OneOfTermQueryType => 6
    case AllQueryType => 7
  }

  /** The wire code of each modifier. */
  function ModifierCode(m: QueryModifier): (code: nat)
    ensures code < 3
  {
    match m
    case Must => 0
    case Should => 1
    case MustNot => 2
  }

  /** The type codes and the kinds are in one-to-one correspondence. */
  lemma QueryTypeCodeBijection(t: QueryType, code: nat)
    ensures QueryTypeFromU64(QueryTypeCode(t)) == Some(t)
    ensures QueryTypeFromU64(code) == Some(t) ==> code == QueryTypeCode(t)
  {
  }

  /** The modifier codes and the modifiers are in one-to-one correspondence. */
  lemma ModifierCodeBijection(m: QueryModifier, code: nat)
    ensures QueryModifierFromU64(ModifierCode(m)) == Some(m)
    ensures QueryModifierFromU64(code) == Some(m) ==> code == ModifierCode(m)
  {
  }

  /** `extract_query_data`: the `query` member, which must be an object. */
  function ExtractQueryData(v: JValue): (r: Result<map<string, JValue>, DecodeError>)
    ensures r.Ok? <==> Get(v, "query").Some? && Get(v, "query").value.JObj?
    ensures r.Ok? ==> r.value == v.fields["query"].fields
    ensures r.Err? ==> r.error == MissingField("query")
  {
    match Get(v, "query")
    case Some(JObj(m)) => Ok(m)
    case _ => Err(MissingField("query"))
  }

  /** An index member: its `u64` value, or 0 when absent or ill-typed. */
  function IndexOrZero(data: map<string, JValue>, key: string): nat
  {
    match Lookup(data, key)
    case Some(x) => AsU64(x).GetOr(0)
    case None => 0
  }

  /** A boost member: its numeric value, or 1.0 when absent or ill-typed. */
  function BoostOrOne(data: map<string, JValue>): real
  {
    match Lookup(data, "boost")
    case Some(x) => AsF64(x).GetOr(1.0)
    case None => 1.0
  }

  /** The modifier step: the key must be present, then a valid `u64` code. */
  function DecodeModifier(v: JValue): (r: Result<QueryModifier, DecodeError>)
    ensures Get(v, "query_modifier").None? ==> r == Err(MissingField("query_modifier"))
    ensures r.Ok? ==> Get(v, "query_modifier").Some? && AsU64(Get(v, "query_modifier").value) == Some(ModifierCode(r.value))
  {
    match Get(v, "query_modifier")
    case None => Err(MissingField("query_modifier"))
    case Some(x) =>
      match AsU64(x)
      case None => Err(InvalidQueryModifier)
      case Some(code) =>
        match QueryModifierFromU64(code)
        case None => Err(InvalidQueryModifier)
        case Some(m) => Ok(m)
  }

  /** The type step: the key must be present, then a valid `u64` code. */
  function DecodeQueryType(v: JValue): (r: Result<QueryType, DecodeError>)
    ensures Get(v, "query_type").None? ==> r == Err(MissingField("query_type"))
    ensures r.Ok? ==> Get(v, "query_type").Some? && AsU64(Get(v, "query_type").value) == Some(QueryTypeCode(r.value))
  {
    match Get(v, "query_type")
    case None => Err(MissingField("query_type"))
    case Some(x) =>
      match AsU64(x)
      case None => Err(InvalidQueryType)
      case Some(code) =>
        match QueryTypeFromU64(code)
        case None => Err(InvalidQueryType)
        case Some(t) => Ok(t)
  }

  /**
    `QueryElement::deserialize`. The modifier is decoded before the type;
    a successful decode always carries a payload whose kind is the decoded
    type.
  */
  function DecodeElement(v: JValue): (r: Result<QueryElement, DecodeError>)
    decreases v
    ensures r.Ok? ==> r.value.query.Some?
    ensures r.Ok? ==> DecodeModifier(v) == Ok(r.value.modifier)
    ensures r.Ok? ==> DecodeQueryType(v) == Ok(KindOf(r.value.query.value))
    ensures (DecodeModifier(v).Ok? && DecodeQueryType(v).Ok? && DecodeQueryType(v).value != BoolQueryType) ==>
              (r.Ok? <==> ExtractQueryData(v).Ok?)
  {
    match DecodeModifier(v)
    case Err(e) => Err(e)
    case Ok(modifier) =>
      match DecodeQueryType(v)
      case Err(e) => Err(e)
      case Ok(t) =>
        if t == BoolQueryType then
          var q := Get(v, "query");
          var subs := if q.Some? then Get(q.value, "subqueries") else None;
          var boost := if q.Some? then Get(q.value, "boost") else None;
          if subs.None? then Err(MissingField("subqueries"))
          else if boost.None? || AsF64(boost.value).None? then Err(MissingField("boost"))
          else
            match subs.value
            case JArr(items) =>
              (match DecodeElements(items)
               case Ok(children) => Ok(QueryElement(Some(BoolQuery(children, AsF64(boost.value).value)), modifier))
               case Err(e) => Err(e))
            case _ => Err(ExpectedSequence)
        else
          match ExtractQueryData(v)
          case Err(e) => Err(e)
          case Ok(data) =>
            if t == AllQueryType then
              Ok(QueryElement(Some(AllQuery(BoostOrOne(data))), modifier))
            else
              var leaf := MakeLeaf(t, IndexOrZero(data, "field_index"), IndexOrZero(data, "text_index"), BoostOrOne(data));
              Ok(QueryElement(Some(leaf), modifier))
  }

  /** `Vec<QueryElement>` from an array: elements in order, first error wins. */
  function DecodeElements(items: seq<JValue>): (r: Result<seq<QueryElement>, DecodeError>)
    decreases items
    ensures r.Ok? ==> |r.value| == |items|
    ensures r.Ok? <==> forall i :: 0 <= i < |items| ==> DecodeElement(items[i]).Ok?
    ensures r.Ok? ==> forall i :: 0 <= i < |items| ==> DecodeElement(items[i]) == Ok(r.value[i])
    ensures r.Err? ==>
              (exists i :: 0 <= i < |items|
                 && (forall j :: 0 <= j < i ==> DecodeElement(items[j]).Ok?)
                 && DecodeElement(items[i]) == Err(r.error))
  {
    if |items| == 0 then Ok([])
    else
      match DecodeElement(items[0])
      case Err(e) => Err(e)
      case Ok(first) =>
        match DecodeElements(items[1..])
        case Err(e) =>
          ghost var i :| 0 <= i < |items[1..]|
              && (forall j :: 0 <= j < i ==> DecodeElement(items[1..][j]).Ok?)
              && DecodeElement(items[1..][i]) == Err(e);
          assert forall j :: 0 <= j < i + 1 ==> DecodeElement(items[j]).Ok?;
          Err(e)
        case Ok(rest) => Ok([first] + rest)
  }

  /** A `Vec<String>` member. */
  function DecodeStrings(v: JValue): (r: Result<seq<string>, DecodeError>)
    ensures r.Ok? <==> v.JArr? && forall i :: 0 <= i < |v.items| ==> v.items[i].JStr?
    ensures r.Ok? ==> |r.value| == |v.items| && forall i :: 0 <= i < |v.items| ==> r.value[i] == v.items[i].s
  {
    match v
    case JArr(items) =>
      if forall i :: 0 <= i < |items| ==> items[i].JStr? then
        Ok(seq(|items|, i requires 0 <= i < |items| => items[i].s))
      else Err(ExpectedString)
    case _ => Err(ExpectedSequence)
  }

  /** The `subqueries` member of a group: a sequence of clauses. */
  function DecodeSubqueries(v: JValue): (r: Result<seq<QueryElement>, DecodeError>)
    ensures r.Ok? <==> v.JArr? && DecodeElements(v.items).Ok?
    ensures r.Ok? ==> r.value == DecodeElements(v.items).value
  {
    match v
    case JArr(items) => DecodeElements(items)
    case _ => Err(ExpectedSequence)
  }

  /**
    The derived decoder of the root group: an object with `subqueries`, or
    an array holding exactly that one member. It has no boost.
  */
  function DecodeRootQuery(v: JValue): (r: Result<RootBoolQuery, DecodeError>)
    ensures r.Ok? ==> v.JObj? || (v.JArr? && |v.items| == 1)
    ensures r.Ok? && v.JObj? ==> "subqueries" in v.fields && DecodeSubqueries(v.fields["subqueries"]) == Ok(r.value.subqueries)
    ensures r.Ok? && v.JArr? ==> DecodeSubqueries(v.items[0]) == Ok(r.value.subqueries)
    ensures v.JArr? && |v.items| == 0 ==> r == Err(InvalidLength(0))
    ensures !v.JObj? && !v.JArr? ==> r == Err(ExpectedStruct)
  {
    match v
    case JObj(qm) =>
      if "subqueries" !in qm then Err(MissingField("subqueries"))
      else
        (match DecodeSubqueries(qm["subqueries"])
         case Err(e) => Err(e)
         case Ok(subs) => Ok(RootBoolQuery(subs)))
    case JArr(items) =>
      if |items| == 0 then Err(InvalidLength(0))
      else
        (match DecodeSubqueries(items[0])
         case Err(e) => Err(e)
         case Ok(subs) => if |items| > 1 then Err(TrailingElements) else Ok(RootBoolQuery(subs)))
    case _ => Err(ExpectedStruct)
  }

  /**
    The derived decoder of the root document: an object with `texts`,
    `fields` and `query`, or an array holding exactly those three members in
    that order. Array members are decoded one after the other; the first
    one missing is an invalid length at its index, and members past the
    third are rejected once the three decode.
  */
  function DecodeFinalQuery(v: JValue): (r: Result<FinalQuery, DecodeError>)
    ensures r.Ok? ==> v.JObj? || (v.JArr? && |v.items| == 3)
    ensures r.Ok? && v.JObj? ==>
              && "texts" in v.fields && "fields" in v.fields && "query" in v.fields
              && DecodeStrings(v.fields["texts"]) == Ok(r.value.texts)
              && DecodeStrings(v.fields["fields"]) == Ok(r.value.fields)
              && DecodeRootQuery(v.fields["query"]) == Ok(r.value.query)
    ensures r.Ok? && v.JArr? ==>
              && DecodeStrings(v.items[0]) == Ok(r.value.texts)
              && DecodeStrings(v.items[1]) == Ok(r.value.fields)
              && DecodeRootQuery(v.items[2]) == Ok(r.value.query)
    ensures v.JArr? && |v.items| == 0 ==> r == Err(InvalidLength(0))
    ensures !v.JObj? && !v.JArr? ==> r == Err(ExpectedStruct)
  {
    match v
    case JObj(m) =>
      if "texts" !in m then Err(MissingField("texts"))
      else if "fields" !in m then Err(MissingField("fields"))
      else if "query" !in m then Err(MissingField("query"))
      else DecodeMembers(m["texts"], m["fields"], m["query"])
    case JArr(items) =>
      if |items| == 0 then Err(InvalidLength(0))
      else
        (match DecodeStrings(items[0])
         case Err(e) => Err(e)
         case Ok(_) =>
           if |items| == 1 then Err(InvalidLength(1))
           else
             (match DecodeStrings(items[1])
              case Err(e) => Err(e)
              case Ok(_) =>
                if |items| == 2 then Err(InvalidLength(2))
                else
                  (match DecodeMembers(items[0], items[1], items[2])
                   case Err(e) => Err(e)
                   case Ok(fq) => if |items| > 3 then Err(TrailingElements) else Ok(fq))))
    case _ => Err(ExpectedStruct)
  }

  /** The three members of a document, decoded in order. */
  function DecodeMembers(texts: JValue, fields: JValue, query: JValue): (r: Result<FinalQuery, DecodeError>)
    ensures r.Ok? <==> DecodeStrings(texts).Ok? && DecodeStrings(fields).Ok? && DecodeRootQuery(query).Ok?
    ensures r.Ok? ==> r.value == FinalQuery(DecodeStrings(texts).value, DecodeStrings(fields).value, DecodeRootQuery(query).value)
    ensures DecodeStrings(texts).Err? ==> r == Err(DecodeStrings(texts).error)
  {
    match DecodeStrings(texts)
    case Err(e) => Err(e)
    case Ok(ts) =>
      match DecodeStrings(fields)
      case Err(e) => Err(e)
      case Ok(fs) =>
        match DecodeRootQuery(query)
        case Err(e) => Err(e)
        case Ok(q) => Ok(FinalQuery(ts, fs, q))
  }

  /** A document array cut short, with every member present decoding, fails at the first missing index. */
  lemma ShortDocumentArrayRejected(v: JValue)
    requires v.JArr? && 0 < |v.items| < 3
    requires forall i :: 0 <= i < |v.items| ==> DecodeStrings(v.items[i]).Ok?
    ensures DecodeFinalQuery(v) == Err(InvalidLength(|v.items|))
  {
  }

  /** A document array whose three members decode, followed by more, is rejected. */
  lemma TrailingDocumentMembersRejected(v: JValue)
    requires v.JArr? && |v.items| > 3
    requires DecodeMembers(v.items[0], v.items[1], v.items[2]).Ok?
    ensures DecodeFinalQuery(v) == Err(TrailingElements)
  {
  }

  /** `[["foo"], ["title"], [[]]]`: a document written positionally. */
  lemma PositionalDocumentExample()
    ensures DecodeFinalQuery(JArr([JArr([JStr("foo")]), JArr([JStr("title")]), JArr([JArr([])])]))
            == Ok(FinalQuery(["foo"], ["title"], RootBoolQuery([])))
  {
    var texts := JArr([JStr("foo")]);
    var fields := JArr([JStr("title")]);
    var query := JArr([JArr([])]);
    var rt := DecodeStrings(texts);
    assert texts.items[0].JStr? && rt.Ok? && rt.value[0] == "foo";
    assert rt.value == ["foo"];
    var rf := DecodeStrings(fields);
    assert fields.items[0].JStr? && rf.Ok? && rf.value[0] == "title";
    assert rf.value == ["title"];
    assert DecodeRootQuery(query) == Ok(RootBoolQuery([]));
  }

  /** The modifier is examined before anything else: its failures win. */
  lemma ModifierCheckedFirst(v: JValue)
    requires DecodeModifier(v).Err?
    ensures DecodeElement(v) == Err(DecodeModifier(v).error)
    ensures Get(v, "query_modifier").Some? ==> DecodeElement(v) == Err(InvalidQueryModifier)
  {
  }

  /** With a valid modifier, the type is examined next. */
  lemma QueryTypeCheckedSecond(v: JValue)
    requires DecodeModifier(v).Ok? && DecodeQueryType(v).Err?
    ensures DecodeElement(v) == Err(DecodeQueryType(v).error)
    ensures Get(v, "query_type").Some? ==> DecodeElement(v) == Err(InvalidQueryType)
  {
  }

  /**
    Leaf payload members fall back silently: once the modifier, a leaf type
    and a `query` object are there, the clause decodes, whatever its index
    and boost members hold; a missing or non-`u64` index reads as 0 and a
    missing or non-numeric boost as 1.0; present values are taken as they are.
  */
  lemma LeafDefaults(v: JValue)
    requires DecodeModifier(v).Ok? && DecodeQueryType(v).Ok? && ExtractQueryData(v).Ok?
    requires DecodeQueryType(v).value != BoolQueryType && DecodeQueryType(v).value != AllQueryType
    ensures DecodeElement(v).Ok? && IsLeaf(DecodeElement(v).value.query.value)
    ensures DecodeElement(v).value.query.value == MakeLeaf(DecodeQueryType(v).value,
              DecodeElement(v).value.query.value.fieldIndex, DecodeElement(v).value.query.value.textIndex,
              DecodeElement(v).value.query.value.boost)
    ensures var data := v.fields["query"].fields;
            var q := DecodeElement(v).value.query.value;
            && (Lookup(data, "field_index").None? || AsU64(data["field_index"]).None? ==> q.fieldIndex == 0)
            && (Lookup(data, "field_index").Some? && AsU64(data["field_index"]).Some? ==> q.fieldIndex == data["field_index"].n)
            && (Lookup(data, "text_index").None? || AsU64(data["text_index"]).None? ==> q.textIndex == 0)
            && (Lookup(data, "text_index").Some? && AsU64(data["text_index"]).Some? ==> q.textIndex == data["text_index"].n)
            && (Lookup(data, "boost").None? || AsF64(data["boost"]).None? ==> q.boost == 1.0)
            && (Lookup(data, "boost").Some? && AsF64(data["boost"]).Some? ==> q.boost == AsF64(data["boost"]).value)
  {
  }

  /** Leaf and match-all clauses need a `query` object. */
  lemma PayloadObjectRequired(v: JValue)
    requires DecodeModifier(v).Ok? && DecodeQueryType(v).Ok?
    requires DecodeQueryType(v).value != BoolQueryType
    requires Get(v, "query").None? || !Get(v, "query").value.JObj?
    ensures DecodeElement(v) == Err(MissingField("query"))
  {
  }

  /** A nested group needs `subqueries` and a numeric `boost`: no default. */
  lemma BoolBoostRequired(v: JValue)
    requires DecodeModifier(v).Ok? && DecodeQueryType(v) == Ok(BoolQueryType)
    requires Get(v, "query").Some? && Get(Get(v, "query").value, "subqueries").Some?
    requires Get(Get(v, "query").value, "boost").None? || AsF64(Get(Get(v, "query").value, "boost").value).None?
    ensures DecodeElement(v) == Err(MissingField("boost"))
  {
  }
}
