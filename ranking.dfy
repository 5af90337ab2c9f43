/** The filter, sort and truncate step shared by the three searches of src/app.js: every
    document whose score exceeds a threshold becomes a hit carrying its 1-based position,
    the hits are sorted by descending score with the engine's stable `Array.prototype.sort`,
    and the first `topN` are kept with `slice(0, topN)`. */
module Ranking {
  import opened Seqs

  datatype Document = Document(text: string)

  datatype SearchResult = SearchResult(index: nat, similarity: real, text: string)

  /** `a` is placed before `b`: a higher score, or the same score and an earlier document. */
  predicate Precedes(a: SearchResult, b: SearchResult) {
    a.similarity > b.similarity || (a.similarity == b.similarity && a.index < b.index)
  }

  /** Sorted by descending score, ties in document order. */
  predicate Ranked(rs: seq<SearchResult>) {
    forall i, j :: 0 <= i < j < |rs| ==> Precedes(rs[i], rs[j])
  }

  predicate IndicesIncreasing(rs: seq<SearchResult>) {
    forall i, j :: 0 <= i < j < |rs| ==> rs[i].index < rs[j].index
  }

  /** Places `x` after every element whose score is at least its own. */
  function Insert(x: SearchResult, rs: seq<SearchResult>): (r: seq<SearchResult>)
    ensures multiset(r) == multiset(rs) + multiset{x}
  {
    if rs == [] then [x]
    else if rs[0].similarity >= x.similarity then
      assert rs == [rs[0]] + rs[1..];
      [rs[0]] + Insert(x, rs[1..])
    else [x] + rs
  }

  /** `results.sort((a, b) => b.similarity - a.similarity)`. The built-in sort is stable, and
      so is inserting the elements one after the other, each behind the equal ones. */
  function SortBySimilarity(rs: seq<SearchResult>): (r: seq<SearchResult>)
    ensures multiset(r) == multiset(rs)
  {
    if rs == [] then []
    else
      assert rs == rs[..|rs| - 1] + [rs[|rs| - 1]];
      Insert(rs[|rs| - 1], SortBySimilarity(rs[..|rs| - 1]))
  }

  lemma {:induction false} InsertRanked(x: SearchResult, rs: seq<SearchResult>)
    requires Ranked(rs)
    requires forall k :: 0 <= k < |rs| ==> rs[k].index < x.index
    ensures Ranked(Insert(x, rs))
  {
    if rs != [] {
      if rs[0].similarity >= x.similarity {
        var tail := rs[1..];
        InsertRanked(x, tail);
        var t := Insert(x, tail);
        forall j | 0 <= j < |t| ensures Precedes(rs[0], t[j]) {
          assert t[j] in multiset(t);
          if t[j] != x {
            assert t[j] in multiset(tail);
            var m :| 0 <= m < |tail| && tail[m] == t[j];
            assert rs[m + 1] == t[j];
          }
        }
        assert Insert(x, rs) == [rs[0]] + t;
      } else {
        assert Insert(x, rs) == [x] + rs;
        forall k | 0 <= k < |rs| ensures Precedes(x, rs[k]) {
          if k > 0 { assert Precedes(rs[0], rs[k]); }
        }
      }
    }
  }

  /** Hits listed in document order come out of the sort ranked. */
  lemma {:induction false} SortRanked(rs: seq<SearchResult>)
    requires IndicesIncreasing(rs)
    ensures Ranked(SortBySimilarity(rs))
  {
    if rs != [] {
      var n := |rs| - 1;
      var init := rs[..n];
      SortRanked(init);
      var sorted := SortBySimilarity(init);
      forall k | 0 <= k < |sorted| ensures sorted[k].index < rs[n].index {
        assert sorted[k] in multiset(init);
        var m :| 0 <= m < n && init[m] == sorted[k];
      }
      InsertRanked(rs[n], sorted);
    }
  }

  /** Every document scoring above `threshold`, in document order, with its 1-based index. */
  function Hits(documents: seq<Document>, scores: seq<real>, threshold: real): seq<SearchResult>
    requires |scores| == |documents|
  {
    if documents == [] then []
    else
      var n := |documents| - 1;
      Hits(documents[..n], scores[..n], threshold) +
        (if scores[n] > threshold then [SearchResult(n + 1, scores[n], documents[n].text)] else [])
  }

  /** A hit reports the text and score of the document at its index, and the score exceeds
      the threshold. */
  predicate IsHit(x: SearchResult, documents: seq<Document>, scores: seq<real>, threshold: real)
    requires |scores| == |documents|
  {
    1 <= x.index <= |documents| && x.text == documents[x.index - 1].text &&
    x.similarity == scores[x.index - 1] && x.similarity > threshold
  }

  /** The hits are exactly the documents scoring above the threshold, in document order. */
  lemma {:induction false} HitsProperties(documents: seq<Document>, scores: seq<real>, threshold: real)
    requires |scores| == |documents|
    ensures IndicesIncreasing(Hits(documents, scores, threshold))
    ensures forall x :: x in Hits(documents, scores, threshold) ==> IsHit(x, documents, scores, threshold)
    ensures forall i :: 0 <= i < |documents| && scores[i] > threshold ==>
      SearchResult(i + 1, scores[i], documents[i].text) in Hits(documents, scores, threshold)
  {
    if documents != [] {
      var n := |documents| - 1;
      var ds, ss := documents[..n], scores[..n];
      HitsProperties(ds, ss, threshold);
      var init := Hits(ds, ss, threshold);
      var tail := if scores[n] > threshold then [SearchResult(n + 1, scores[n], documents[n].text)] else [];
      var hits := Hits(documents, scores, threshold);
      assert hits == init + tail;
      forall k | 0 <= k < |init| ensures init[k].index <= n {
        assert init[k] in init;
      }
      if tail != [] {
        IncreasingSnoc(init, tail[0]);
      } else {
        assert hits == init;
      }
      forall x | x in hits ensures IsHit(x, documents, scores, threshold) {
        if x in init {
          assert IsHit(x, ds, ss, threshold);
          assert ds[x.index - 1] == documents[x.index - 1];
        }
      }
      forall i | 0 <= i < |documents| && scores[i] > threshold
        ensures SearchResult(i + 1, scores[i], documents[i].text) in hits
      {
        if i < n {
          assert ss[i] == scores[i] && ds[i] == documents[i];
          assert SearchResult(i + 1, scores[i], documents[i].text) in init;
        }
      }
    }
  }

  /** Appending a result with a larger index keeps the indices increasing. */
  lemma IncreasingSnoc(rs: seq<SearchResult>, x: SearchResult)
    requires IndicesIncreasing(rs)
    requires forall k :: 0 <= k < |rs| ==> rs[k].index < x.index
    ensures IndicesIncreasing(rs + [x])
  {
  }

  /** What a search returns: the hits, sorted, cut to `topN`. */
  function Rank(documents: seq<Document>, scores: seq<real>, threshold: real, topN: int): seq<SearchResult>
    requires |scores| == |documents|
  {
    JsSlice(SortBySimilarity(Hits(documents, scores, threshold)), 0, topN)
  }

  /** The sorted hits: the hits themselves, ranked. */
  lemma SortedHits(documents: seq<Document>, scores: seq<real>, threshold: real)
    requires |scores| == |documents|
    ensures Ranked(SortBySimilarity(Hits(documents, scores, threshold)))
    ensures |SortBySimilarity(Hits(documents, scores, threshold))| == |Hits(documents, scores, threshold)|
    ensures forall x :: x in SortBySimilarity(Hits(documents, scores, threshold)) <==> x in Hits(documents, scores, threshold)
  {
    var hits := Hits(documents, scores, threshold);
    var sorted := SortBySimilarity(hits);
    HitsProperties(documents, scores, threshold);
    SortRanked(hits);
    assert |multiset(sorted)| == |multiset(hits)|;
    forall x ensures x in sorted <==> x in hits {
      assert x in sorted <==> x in multiset(sorted);
      assert x in hits <==> x in multiset(hits);
    }
  }

  /** The ranked results are sorted by descending score, ties in document order, and each
      reports the text and score of the document at its 1-based index, above the threshold. */
  lemma RankShape(documents: seq<Document>, scores: seq<real>, threshold: real, topN: int)
    requires |scores| == |documents|
    ensures Ranked(Rank(documents, scores, threshold, topN))
    ensures forall x :: x in Rank(documents, scores, threshold, topN) ==> IsHit(x, documents, scores, threshold)
  {
    var sorted := SortBySimilarity(Hits(documents, scores, threshold));
    SortedHits(documents, scores, threshold);
    HitsProperties(documents, scores, threshold);
    JsSlicePrefix(sorted, topN);
    var r := Rank(documents, scores, threshold, topN);
    assert r == sorted[..|r|];
    forall x | x in r ensures x in sorted { }
  }

  /** There are `topN` results, or all the hits when there are fewer (`topN` not negative);
      with `topN` at least the number of documents, every document scoring above the
      threshold is among them. */
  lemma RankLength(documents: seq<Document>, scores: seq<real>, threshold: real, topN: int)
    requires |scores| == |documents|
    ensures topN >= 0 ==> |Rank(documents, scores, threshold, topN)| == Min(topN, |Hits(documents, scores, threshold)|)
    ensures topN >= |documents| ==> forall i :: 0 <= i < |documents| && scores[i] > threshold ==>
      SearchResult(i + 1, scores[i], documents[i].text) in Rank(documents, scores, threshold, topN)
  {
    var sorted := SortBySimilarity(Hits(documents, scores, threshold));
    SortedHits(documents, scores, threshold);
    HitsProperties(documents, scores, threshold);
    HitsLength(documents, scores, threshold);
    JsSlicePrefix(sorted, topN);
    if topN >= |documents| {
      assert Rank(documents, scores, threshold, topN) == sorted;
    }
  }

  /** A hit that was cut off scores no higher than any result kept: the results are the
      best-scoring hits. */
  lemma RankKeepsBest(documents: seq<Document>, scores: seq<real>, threshold: real, topN: int, i: nat)
    requires |scores| == |documents| && i < |documents| && scores[i] > threshold
    requires SearchResult(i + 1, scores[i], documents[i].text) !in Rank(documents, scores, threshold, topN)
    ensures forall x :: x in Rank(documents, scores, threshold, topN) ==> x.similarity >= scores[i]
  {
    var hits := Hits(documents, scores, threshold);
    var sorted := SortBySimilarity(hits);
    var r := Rank(documents, scores, threshold, topN);
    var y := SearchResult(i + 1, scores[i], documents[i].text);
    SortedHits(documents, scores, threshold);
    HitsProperties(documents, scores, threshold);
    assert y in sorted;
    JsSlicePrefix(sorted, topN);
    RankedPrefixBeatsRest(sorted, |r|, y);
  }

  /** In a ranked list, every element of a prefix scores at least as high as any element
      left out of it. */
  lemma RankedPrefixBeatsRest(sorted: seq<SearchResult>, n: nat, y: SearchResult)
    requires Ranked(sorted) && n <= |sorted| && y in sorted && y !in sorted[..n]
    ensures forall x :: x in sorted[..n] ==> x.similarity >= y.similarity
  {
    var p :| 0 <= p < |sorted| && sorted[p] == y;
    forall x | x in sorted[..n] ensures x.similarity >= y.similarity {
      var q :| 0 <= q < n && sorted[q] == x;
      assert q < p;
      assert Precedes(sorted[q], sorted[p]);
    }
  }

  /** The best result scores at least as high as any document above the threshold, and
      there is one as soon as `topN` is positive and some document scores above it. */
  lemma TopResult(documents: seq<Document>, scores: seq<real>, threshold: real, topN: int, i: nat)
    requires |scores| == |documents| && i < |documents| && scores[i] > threshold && topN >= 1
    ensures |Rank(documents, scores, threshold, topN)| >= 1
    ensures Rank(documents, scores, threshold, topN)[0].similarity >= scores[i]
  {
    var hits := Hits(documents, scores, threshold);
    var r := Rank(documents, scores, threshold, topN);
    var y := SearchResult(i + 1, scores[i], documents[i].text);
    HitsProperties(documents, scores, threshold);
    assert y in hits;
    RankLength(documents, scores, threshold, topN);
    RankShape(documents, scores, threshold, topN);
    if y in r {
      var q :| 0 <= q < |r| && r[q] == y;
      assert q == 0 || Precedes(r[0], r[q]);
    } else {
      RankKeepsBest(documents, scores, threshold, topN, i);
      assert r[0] in r;
    }
  }

  /** When no score exceeds 1 and some document scores 1 above the threshold, the first
      result scores 1. */
  lemma TopScoreOne(documents: seq<Document>, scores: seq<real>, threshold: real, topN: int, i: nat)
    requires |scores| == |documents| && i < |documents| && scores[i] == 1.0 > threshold && topN >= 1
    requires forall k :: 0 <= k < |scores| ==> scores[k] <= 1.0
    ensures |Rank(documents, scores, threshold, topN)| >= 1
    ensures Rank(documents, scores, threshold, topN)[0].similarity == 1.0
  {
    var r := Rank(documents, scores, threshold, topN);
    TopResult(documents, scores, threshold, topN, i);
    RankShape(documents, scores, threshold, topN);
    assert r[0] in r;
    assert IsHit(r[0], documents, scores, threshold);
  }

  /** One more document scanned: the hits grow by that document when it scores above the
      threshold. */
  lemma HitsSnoc(documents: seq<Document>, scores: seq<real>, threshold: real, i: nat)
    requires |scores| == |documents| && i < |documents|
    ensures Hits(documents[..i + 1], scores[..i + 1], threshold) ==
      Hits(documents[..i], scores[..i], threshold) +
      (if scores[i] > threshold then [SearchResult(i + 1, scores[i], documents[i].text)] else [])
  {
    assert documents[..i + 1][..i] == documents[..i];
    assert scores[..i + 1][..i] == scores[..i];
  }

  lemma {:induction false} HitsLength(documents: seq<Document>, scores: seq<real>, threshold: real)
    requires |scores| == |documents|
    ensures |Hits(documents, scores, threshold)| <= |documents|
  {
    if documents != [] {
      var n := |documents| - 1;
      HitsLength(documents[..n], scores[..n], threshold);
    }
  }
}
