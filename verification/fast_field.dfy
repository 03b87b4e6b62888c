/**
  Reading a string fast field for a list of document addresses: the
  addresses are grouped by segment, each segment's column is opened once,
  and the values are scattered back to the positions they were asked for.
  The segment readers are a function from segment ordinal to what opening
  the column gives; the order in which the hash map of groups is visited is
  left open.
*/
module FastField {
  import opened Wrappers

  /** `DocAddress`: a segment ordinal and a document id within it. */
  datatype DocAddress = DocAddress(segmentOrd: nat, docId: nat)

  /** The first term ordinal of a document, resolved to its text. */
  datatype OrdLookup =
    | NoOrd                 // the document has no value in this column
    | OrdUnresolvable       // `ord_to_str` failed
    | OrdText(text: string)

  /** What `fast_fields().str(name)` gives for one segment. */
  datatype ColumnLookup =
    | ColumnFailed(cause: string)
    | ColumnMissing
    | Column(firstTerm: nat -> OrdLookup)

  datatype FastFieldError =
    | GetFailed(fieldName: string, cause: string)   // "Failed to get fast field '…'"
    | NotFound(fieldName: string, segmentOrd: nat)  // "Fast field '…' not found in segment …"

  /** The value one document contributes: its first term's text, when that is non-empty. */
  function ValueOf(lookup: OrdLookup): (v: Option<string>)
    ensures v.Some? <==> lookup.OrdText? && lookup.text != ""
    ensures v.Some? ==> v.value == lookup.text
  {
    match lookup
    case OrdText(s) => if s != "" then Some(s) else None
    case _ => None
  }

  /** The error a failing column becomes. */
  function ColumnError(fieldName: string, segmentOrd: nat, c: ColumnLookup): FastFieldError
    requires !c.Column?
  {
    match c
    case ColumnFailed(cause) => GetFailed(fieldName, cause)
    case ColumnMissing => NotFound(fieldName, segmentOrd)
  }

  /** The value one address reads, once its segment's column opened. */
  function Expected(columns: nat -> ColumnLookup, a: DocAddress): Option<string>
    requires columns(a.segmentOrd).Column?
  {
    ValueOf(columns(a.segmentOrd).firstTerm(a.docId))
  }

  /** The groups hold exactly the addresses seen so far, each at its own index. */
  predicate Grouped(addrs: seq<DocAddress>, groups: map<nat, seq<(nat, nat)>>, upTo: nat)
    requires upTo <= |addrs|
  {
    && (forall s :: s in groups ==> |groups[s]| > 0)
    && (forall s, k :: s in groups && 0 <= k < |groups[s]| ==>
          groups[s][k].0 < upTo && addrs[groups[s][k].0] == DocAddress(s, groups[s][k].1))
    && (forall idx :: 0 <= idx < upTo ==>
          addrs[idx].segmentOrd in groups && (idx, addrs[idx].docId) in groups[addrs[idx].segmentOrd])
  }

  /**
    The inner loop for one segment whose column opened: every address of
    that segment gets its value, every other position is left as it was.
  */
  method ScatterSegment(columns: nat -> ColumnLookup, addrs: seq<DocAddress>, groups: map<nat, seq<(nat, nat)>>,
                        seg: nat, results: seq<Option<string>>)
    returns (r: seq<Option<string>>)
    requires Grouped(addrs, groups, |addrs|)
    requires seg in groups && columns(seg).Column?
    requires |results| == |addrs|
    requires forall idx :: 0 <= idx < |addrs| && addrs[idx].segmentOrd == seg ==> results[idx] == None
    ensures |r| == |addrs|
    ensures forall idx :: 0 <= idx < |addrs| && addrs[idx].segmentOrd == seg ==> r[idx] == Expected(columns, addrs[idx])
    ensures forall idx :: 0 <= idx < |addrs| && addrs[idx].segmentOrd != seg ==> r[idx] == results[idx]
  {
    var column := columns(seg);
    var docs := groups[seg];
    r := results;
    var j := 0;
    while j < |docs|
      invariant j <= |docs|
      invariant |r| == |addrs|
      invariant forall idx :: 0 <= idx < |addrs| && addrs[idx].segmentOrd != seg ==> r[idx] == results[idx]
      invariant forall idx :: 0 <= idx < |addrs| && addrs[idx].segmentOrd == seg ==>
                  r[idx] == (if (idx, addrs[idx].docId) in docs[..j] then Expected(columns, addrs[idx]) else None)
    {
      var (resultIdx, docId) := docs[j];
      assert docs[..j + 1] == docs[..j] + [docs[j]];
      var v := ValueOf(column.firstTerm(docId));
      if v.Some? {
        r := r[resultIdx := v];
      }
      j := j + 1;
    }
    assert docs[..j] == docs;
  }

  /** `read_fast_field_values`. */
  method ReadFastFieldValues(fieldName: string, columns: nat -> ColumnLookup, addrs: seq<DocAddress>)
    returns (r: Result<seq<Option<string>>, FastFieldError>)
    ensures |addrs| == 0 ==> r == Ok([])
    ensures r.Ok? <==> forall i :: 0 <= i < |addrs| ==> columns(addrs[i].segmentOrd).Column?
    ensures r.Ok? ==> |r.value| == |addrs|
    ensures r.Ok? ==> forall i :: 0 <= i < |addrs| ==> r.value[i] == Expected(columns, addrs[i])
    ensures r.Err? ==> exists i :: 0 <= i < |addrs| && !columns(addrs[i].segmentOrd).Column?
                                && r.error == ColumnError(fieldName, addrs[i].segmentOrd, columns(addrs[i].segmentOrd))
  {
    if |addrs| == 0 {
      return Ok([]);
    }

    var groups: map<nat, seq<(nat, nat)>> := map[];
    var i := 0;
    while i < |addrs|
      invariant i <= |addrs|
      invariant Grouped(addrs, groups, i)
    {
      var s := addrs[i].segmentOrd;
      var existing := if s in groups then groups[s] else [];
      groups := groups[s := existing + [(i, addrs[i].docId)]];
      i := i + 1;
    }

    var results: seq<Option<string>> := seq(|addrs|, _ => None);
    var remaining := groups.Keys;
    while remaining != {}
      invariant remaining <= groups.Keys
      invariant |results| == |addrs|
      invariant forall idx :: 0 <= idx < |addrs| && addrs[idx].segmentOrd !in remaining ==>
                  columns(addrs[idx].segmentOrd).Column? && results[idx] == Expected(columns, addrs[idx])
      invariant forall idx :: 0 <= idx < |addrs| && addrs[idx].segmentOrd in remaining ==> results[idx] == None
      decreases |remaining|
    {
      var seg :| seg in remaining;
      var column := columns(seg);
      if !column.Column? {
        ghost var w := groups[seg][0].0;
        assert addrs[w].segmentOrd == seg;
        return Err(ColumnError(fieldName, seg, column));
      }
      results := ScatterSegment(columns, addrs, groups, seg, results);
      remaining := remaining - {seg};
    }
    return Ok(results);
  }
}
