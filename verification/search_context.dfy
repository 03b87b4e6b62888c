/**
  The Go search-context builder: a query string, a document limit, a
  highlights flag and a map of field weights, set through a fluent builder
  that hands out its own context object. The Go heap is a map from
  references to contexts, so that the aliasing between a builder and a
  context it already built is visible; allocating a new object is left to
  the caller, who passes a reference not yet in use.
*/
module SearchContext {

  /** 2^64: `uintptr` on the 64-bit targets the library is built for. */
  const UINTPTR_LIMIT: int := 0x1_0000_0000_0000_0000

  type Uintptr = x: int | 0 <= x < UINTPTR_LIMIT

  /** A Go pointer. */
  type Ref = nat

  /** `searchContext`; weights are `float32`, kept here as exact reals. */
  datatype Context = Context(query: string, docsLimit: Uintptr, withHighlights: bool, fieldNames: map<string, real>)

  type Heap = map<Ref, Context>

  /** `SearchContextBuilder` holds nothing but a pointer to the context it fills in. */
  datatype SearchContextBuilder = SearchContextBuilder(context: Ref)

  /** Everything but `ref` is as it was. */
  predicate OthersUnchanged(h: Heap, h': Heap, ref: Ref) {
    && h'.Keys == h.Keys
    && forall other :: other in h && other != ref ==> h'[other] == h[other]
  }

  /** `NewSearchContextBuilder`: a zero context with an allocated, empty weight map. */
  function NewSearchContextBuilder(h: Heap, newRef: Ref): (r: (Heap, SearchContextBuilder))
    requires newRef !in h
    ensures r.0.Keys == h.Keys + {newRef} && r.1.context == newRef
    ensures forall other :: other in h ==> r.0[other] == h[other]
    ensures r.0[newRef].fieldNames == map[] && r.0[newRef].query == "" && r.0[newRef].docsLimit == 0 && !r.0[newRef].withHighlights
  {
    (h[newRef := Context("", 0, false, map[])], SearchContextBuilder(newRef))
  }

  /** `SetQuery`: only the query of the builder's context changes. */
  function SetQuery(h: Heap, b: SearchContextBuilder, query: string): (h': Heap)
    requires b.context in h
    ensures OthersUnchanged(h, h', b.context)
    ensures h'[b.context].query == query
    ensures h'[b.context].docsLimit == h[b.context].docsLimit
    ensures h'[b.context].withHighlights == h[b.context].withHighlights
    ensures h'[b.context].fieldNames == h[b.context].fieldNames
  {
    h[b.context := h[b.context].(query := query)]
  }

  /** `SetDocsLimit`: only the limit of the builder's context changes. */
  function SetDocsLimit(h: Heap, b: SearchContextBuilder, limit: Uintptr): (h': Heap)
    requires b.context in h
    ensures OthersUnchanged(h, h', b.context)
    ensures h'[b.context].docsLimit == limit
    ensures h'[b.context].query == h[b.context].query
    ensures h'[b.context].withHighlights == h[b.context].withHighlights
    ensures h'[b.context].fieldNames == h[b.context].fieldNames
  {
    h[b.context := h[b.context].(docsLimit := limit)]
  }

  /** `SetWithHighlights`: only the flag of the builder's context changes. */
  function SetWithHighlights(h: Heap, b: SearchContextBuilder, withHighlights: bool): (h': Heap)
    requires b.context in h
    ensures OthersUnchanged(h, h', b.context)
    ensures h'[b.context].withHighlights == withHighlights
    ensures h'[b.context].query == h[b.context].query
    ensures h'[b.context].docsLimit == h[b.context].docsLimit
    ensures h'[b.context].fieldNames == h[b.context].fieldNames
  {
    h[b.context := h[b.context].(withHighlights := withHighlights)]
  }

  /**
    `AddField`: the field gets this weight whether or not it had one, and
    no other field's weight changes.
  */
  function AddField(h: Heap, b: SearchContextBuilder, field: string, weight: real): (h': Heap)
    requires b.context in h
    ensures OthersUnchanged(h, h', b.context)
    ensures var before := h[b.context].fieldNames;
            var after := h'[b.context].fieldNames;
            && after.Keys == before.Keys + {field}
            && after[field] == weight
            && (forall f :: f in before && f != field ==> after[f] == before[f])
    ensures h'[b.context].query == h[b.context].query
    ensures h'[b.context].docsLimit == h[b.context].docsLimit
    ensures h'[b.context].withHighlights == h[b.context].withHighlights
  {
    var c := h[b.context];
    h[b.context := c.(fieldNames := c.fieldNames[field := weight])]
  }

  /** `AddFieldWithoutWeight`: `AddField` with weight 1. */
  function AddFieldWithoutWeight(h: Heap, b: SearchContextBuilder, field: string): (h': Heap)
    requires b.context in h
    ensures h' == AddField(h, b, field, 1.0)
    ensures field in h'[b.context].fieldNames && h'[b.context].fieldNames[field] == 1.0
  {
    var c := h[b.context];
    h[b.context := c.(fieldNames := c.fieldNames[field := 1.0])]
  }

  /**
    `Build`: the builder's own context, not a copy, so whatever the
    builder's setters do later shows through the built context.
  */
  function Build(b: SearchContextBuilder): (c: Ref)
    ensures c == b.context
    ensures forall h: Heap, q: string :: b.context in h ==> SetQuery(h, b, q)[c].query == q
    ensures forall h: Heap, limit: Uintptr :: b.context in h ==> SetDocsLimit(h, b, limit)[c].docsLimit == limit
    ensures forall h: Heap, f: string, w: real :: b.context in h ==> AddField(h, b, f, w)[c].fieldNames[f] == w
  {
    b.context
  }

  /** Adding a field twice keeps only the second weight. */
  lemma LastWeightWins(h: Heap, b: SearchContextBuilder, field: string, w1: real, w2: real)
    requires b.context in h
    ensures AddField(AddField(h, b, field, w1), b, field, w2) == AddField(h, b, field, w2)
  {
    var c := h[b.context];
    assert c.fieldNames[field := w1][field := w2] == c.fieldNames[field := w2];
  }

  /**
    A context already built still follows its builder: a setter called
    after `Build` shows through the built context.
  */
  lemma BuiltContextSeesLaterCalls(h: Heap, b: SearchContextBuilder, query: string, field: string, weight: real)
    requires b.context in h
    ensures var built := Build(b);
            && SetQuery(h, b, query)[built].query == query
            && AddField(h, b, field, weight)[built].fieldNames[field] == weight
  {
  }

  /** The example at the end of the file: the context it describes. */
  lemma ExampleContext(h: Heap, newRef: Ref)
    requires newRef !in h
    ensures var (h1, b) := NewSearchContextBuilder(h, newRef);
            var h2 := SetQuery(h1, b, "example search query");
            var h3 := SetDocsLimit(h2, b, 10);
            var h4 := SetWithHighlights(h3, b, true);
            var h5 := AddField(h4, b, "title", 1.5);
            var h6 := AddFieldWithoutWeight(h5, b, "description");
            h6[Build(b)] == Context("example search query", 10, true, map["title" := 1.5, "description" := 1.0])
  {
  }

  /**
    `GetFieldWeights`: the map's entries as two parallel slices, in the
    order Go's map iteration happens to produce (any order; the choice of
    the next key is left open).
  */
  method GetFieldWeights(c: Context) returns (fields: seq<string>, weights: seq<real>)
    ensures |fields| == |weights| == |c.fieldNames|
    ensures forall i :: 0 <= i < |fields| ==> fields[i] in c.fieldNames && weights[i] == c.fieldNames[fields[i]]
    ensures forall i, j :: 0 <= i < j < |fields| ==> fields[i] != fields[j]
    ensures forall f :: f in c.fieldNames ==> f in fields
  {
    fields, weights := [], [];
    var remaining := c.fieldNames.Keys;
    while remaining != {}
      invariant |fields| == |weights|
      invariant remaining <= c.fieldNames.Keys
      invariant forall i :: 0 <= i < |fields| ==> fields[i] in c.fieldNames && fields[i] !in remaining
      invariant forall i :: 0 <= i < |fields| ==> weights[i] == c.fieldNames[fields[i]]
      invariant forall i, j :: 0 <= i < j < |fields| ==> fields[i] != fields[j]
      invariant forall f :: f in c.fieldNames ==> f in remaining || f in fields
      invariant |fields| + |remaining| == |c.fieldNames|
      decreases |remaining|
    {
      var field :| field in remaining;
      fields := fields + [field];
      weights := weights + [c.fieldNames[field]];
      remaining := remaining - {field};
    }
  }
}
