/**
  The counting metrics of the search-quality harness: precision and recall
  at k over a ranked list of retrieved ids and a list of relevant ids, the
  id extraction from result samples, and the escaping of query text. Go's
  `float64` division is kept exact except for the one place where it
  leaves the reals: 0/0, which is NaN.
*/
module QualityMetrics {

  /** A `float64` result: a real number or NaN. */
  datatype Metric = Value(x: real) | NaN

  /** The id-bearing part of a result sample. */
  datatype DocSample = DocSample(id: string)

  /** `extractIds`: the ids, in result order. */
  function ExtractIds(samples: seq<DocSample>): (ids: seq<string>)
    ensures |ids| == |samples|
    ensures forall i :: 0 <= i < |samples| ==> ids[i] == samples[i].id
  {
    seq(|samples|, i requires 0 <= i < |samples| => samples[i].id)
  }

  /** `escape`: ':' and '?' become spaces, every other character stays. */
  function Escape(query: string): (r: string)
    ensures |r| == |query|
    ensures forall i :: 0 <= i < |query| ==> r[i] == (if query[i] == ':' || query[i] == '?' then ' ' else query[i])
  {
    seq(|query|, i requires 0 <= i < |query| => if query[i] == ':' || query[i] == '?' then ' ' else query[i])
  }

  /** Escaping leaves no ':' or '?', and escaping again changes nothing. */
  lemma EscapeIdempotent(query: string)
    ensures forall i :: 0 <= i < |Escape(query)| ==> Escape(query)[i] != ':' && Escape(query)[i] != '?'
    ensures Escape(Escape(query)) == Escape(query)
  {
  }

  /** `k` clamped to the length of the ranking; a negative `k` stays negative. */
  function EffectiveK(k: int, n: nat): (ek: int)
    ensures ek <= n && ek <= k
    ensures ek == k || ek == n
  {
    if k > n then n else k
  }

  /** How many entries of `ranked` are in `relevant`, counting repeats in `ranked`. */
  function Hits(ranked: seq<string>, relevant: set<string>): (h: nat)
    ensures h <= |ranked|
  {
    if |ranked| == 0 then 0
    else Hits(ranked[..|ranked| - 1], relevant) + (if ranked[|ranked| - 1] in relevant then 1 else 0)
  }

  /** The hits among the first `k` results (none when `k` is not positive). */
  function HitsAtK(retrieved: seq<string>, relevant: seq<string>, k: int): (h: nat)
  {
    var ek := EffectiveK(k, |retrieved|);
    if ek <= 0 then 0 else Hits(retrieved[..ek], set d | d in relevant)
  }

  /** Builds the relevant set the way the Go loop does, one insertion per entry. */
  method RelevantSet(relevant: seq<string>) returns (s: set<string>)
    ensures s == set d | d in relevant
  {
    s := {};
    var i := 0;
    while i < |relevant|
      invariant i <= |relevant|
      invariant s == set d | d in relevant[..i]
    {
      assert relevant[..i + 1] == relevant[..i] + [relevant[i]];
      s := s + {relevant[i]};
      i := i + 1;
    }
    assert relevant[..i] == relevant;
  }

  /** The counting loop both metrics share. */
  method CountHits(retrieved: seq<string>, relevantSet: set<string>, k: int) returns (hits: nat)
    requires k <= |retrieved|
    ensures k <= 0 ==> hits == 0
    ensures k > 0 ==> hits == Hits(retrieved[..k], relevantSet)
  {
    hits := 0;
    var i := 0;
    while i < k
      invariant 0 <= i <= (if k > 0 then k else 0)
      invariant hits == Hits(retrieved[..i], relevantSet)
    {
      assert retrieved[..i + 1][..i] == retrieved[..i];
      hits := hits + (if retrieved[i] in relevantSet then 1 else 0);
      i := i + 1;
    }
  }

  /**
    `CalculatePrecisionAtK`: hits over the effective k. An effective k of 0
    divides 0 by 0 and gives NaN; a negative k gives zero hits over a
    negative number, which is zero.
  */
  method PrecisionAtK(retrieved: seq<string>, relevant: seq<string>, k: int) returns (m: Metric)
    ensures EffectiveK(k, |retrieved|) == 0 <==> m.NaN?
    ensures EffectiveK(k, |retrieved|) < 0 ==> m == Value(0.0)
    ensures EffectiveK(k, |retrieved|) > 0 ==>
              m == Value(HitsAtK(retrieved, relevant, k) as real / EffectiveK(k, |retrieved|) as real)
    ensures m.Value? ==> 0.0 <= m.x <= 1.0
  {
    var ek := EffectiveK(k, |retrieved|);
    var relevantSet := RelevantSet(relevant);
    var hits := CountHits(retrieved, relevantSet, ek);
    if ek == 0 {
      m := NaN;
    } else if ek < 0 {
      m := Value(0.0);
    } else {
      assert hits as real <= ek as real;
      m := Value(hits as real / ek as real);
    }
  }

  /** `CalculateRecallAtK`: hits over the number of relevant entries, 0 when there are none. */
  method RecallAtK(retrieved: seq<string>, relevant: seq<string>, k: int) returns (m: Metric)
    ensures m.Value?
    ensures |relevant| == 0 ==> m == Value(0.0)
    ensures |relevant| > 0 ==> m == Value(HitsAtK(retrieved, relevant, k) as real / |relevant| as real)
    ensures 0.0 <= m.x
  {
    var ek := EffectiveK(k, |retrieved|);
    var relevantSet := RelevantSet(relevant);
    var hits := CountHits(retrieved, relevantSet, ek);
    if |relevant| == 0 {
      m := Value(0.0);
    } else {
      m := Value(hits as real / |relevant| as real);
    }
  }

  /** The entries of a list, as a set. */
  function Elements(s: seq<string>): set<string> {
    set x | x in s
  }

  /** Over a ranking without repeats, the hits are the relevant ids it contains. */
  lemma {:induction false} HitsOfDistinct(ranked: seq<string>, relevant: set<string>)
    requires forall i, j :: 0 <= i < j < |ranked| ==> ranked[i] != ranked[j]
    ensures Hits(ranked, relevant) == |Elements(ranked) * relevant|
  {
    if |ranked| > 0 {
      var init := ranked[..|ranked| - 1];
      var last := ranked[|ranked| - 1];
      HitsOfDistinct(init, relevant);
      assert ranked == init + [last];
      assert last !in Elements(init);
      assert Elements(ranked) == Elements(init) + {last};
      if last in relevant {
        assert Elements(ranked) * relevant == (Elements(init) * relevant) + {last};
      } else {
        assert Elements(ranked) * relevant == Elements(init) * relevant;
      }
    }
  }

  /** A set drawn from a list is no larger than the list. */
  lemma {:induction false} ElementsAtMostLength(s: seq<string>)
    ensures |Elements(s)| <= |s|
  {
    if |s| > 0 {
      ElementsAtMostLength(s[1..]);
      assert Elements(s) == Elements(s[1..]) + {s[0]};
    }
  }

  lemma {:induction false} SubsetNoLarger(a: set<string>, b: set<string>)
    requires a <= b
    ensures |a| <= |b|
    decreases |a|
  {
    if a != {} {
      var x :| x in a;
      SubsetNoLarger(a - {x}, b - {x});
    }
  }

  /**
    When the retrieved ids have no repeats, recall is at most 1; with
    repeats it is not, since every repeat of a relevant id counts again.
  */
  lemma RecallAtMostOneWithoutRepeats(retrieved: seq<string>, relevant: seq<string>, k: int)
    requires forall i, j :: 0 <= i < j < |retrieved| ==> retrieved[i] != retrieved[j]
    requires |relevant| > 0
    ensures HitsAtK(retrieved, relevant, k) <= |relevant|
  {
    var ek := EffectiveK(k, |retrieved|);
    if ek > 0 {
      var prefix := retrieved[..ek];
      var rel := set d | d in relevant;
      HitsOfDistinct(prefix, rel);
      ElementsAtMostLength(relevant);
      assert rel == Elements(relevant);
      SubsetNoLarger(Elements(prefix) * rel, rel);
    }
  }

  /** Recall over a ranking that repeats a relevant id: one relevant id, two hits. */
  lemma RecallCanExceedOne()
    ensures HitsAtK(["a", "a"], ["a"], 2) == 2
  {
    var ranked: seq<string> := ["a", "a"];
    var rel := set d | d in ["a"];
    assert "a" in rel;
    assert ranked[..2] == ranked;
    assert ranked[..1] == ["a"] && ["a"][..0] == [];
    assert Hits(["a"], rel) == 1;
    assert Hits(ranked, rel) == 2;
  }
}
