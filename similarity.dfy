/** The three pair scores of src/app.js: the inner product of two sparse TF-IDF vectors
    (`cosineSimilarityAdvanced`), the Jaccard coefficient of two token sets
    (`jaccardSimilarity`), and the substring score of the simple search
    (`calculateSimilarity`). */
module Similarity {
  import opened Text
  import opened SparseVectors
  import opened RealArith

  // ----- cosine of two sparse vectors -----

  /** `cosineSimilarityAdvanced` on two `Map`s: walks the keys of the smaller map and adds
      the products of the weights the two maps share. The vectors are already L2-normalised,
      so the inner product is the cosine. */
  method CosineSimilarity(vec1: Vector, vec2: Vector) returns (dotProduct: real)
    ensures dotProduct == Dot(vec1, vec2)
  {
    var smaller, larger := vec1, vec2;
    if |vec1| > |vec2| {
      smaller, larger := vec2, vec1;
    }
    dotProduct := SumShared(smaller, larger);
    if |vec1| > |vec2| {
      assert vec2.Keys * vec1.Keys == vec1.Keys * vec2.Keys;
      DotOverSymmetric(vec1.Keys * vec2.Keys, vec1, vec2);
    }
  }

  /** The loop over the smaller map: the sum of the products over the keys both maps hold. */
  method SumShared(smaller: Vector, larger: Vector) returns (dotProduct: real)
    ensures dotProduct == DotOver(smaller.Keys * larger.Keys, smaller, larger)
  {
    dotProduct := 0.0;
    var remaining := smaller.Keys;
    while remaining != {}
      invariant remaining <= smaller.Keys
      invariant dotProduct == DotOver((smaller.Keys - remaining) * larger.Keys, smaller, larger)
      decreases |remaining|
    {
      var token :| token in remaining;
      DotStep(smaller, larger, remaining, token);
      if token in larger {
        dotProduct := dotProduct + smaller[token] * larger[token];
      }
      remaining := remaining - {token};
    }
    assert smaller.Keys - remaining == smaller.Keys;
  }

  /** Visiting one more key of the smaller vector adds its product when the other vector
      has that key. */
  lemma DotStep(smaller: Vector, larger: Vector, remaining: set<string>, token: string)
    requires remaining <= smaller.Keys && token in remaining
    ensures DotOver((smaller.Keys - (remaining - {token})) * larger.Keys, smaller, larger) ==
      DotOver((smaller.Keys - remaining) * larger.Keys, smaller, larger) +
      (if token in larger then smaller[token] * larger[token] else 0.0)
  {
    var done := (smaller.Keys - remaining) * larger.Keys;
    if token in larger {
      assert (smaller.Keys - (remaining - {token})) * larger.Keys == done + {token};
      DotOverSplit(done + {token}, smaller, larger, token);
      assert done + {token} - {token} == done;
    } else {
      assert (smaller.Keys - (remaining - {token})) * larger.Keys == done;
    }
  }

  // ----- Jaccard coefficient -----

  function SetOf(tokens: seq<string>): set<string> { set t | t in tokens }

  /** A subset is no larger, and a subset of the same size is the whole set. */
  lemma {:induction false} SubsetCard<T>(a: set<T>, b: set<T>)
    requires a <= b
    ensures |a| <= |b|
    ensures |a| == |b| ==> a == b
    decreases |b|
  {
    if a != b {
      assert !(b <= a);
      var x :| x in b && x !in a;
      SubsetCard(a, b - {x});
    }
  }

  /** `jaccardSimilarity`: shared distinct tokens over all distinct tokens, 0 when there are
      none at all. */
  function JaccardSimilarity(tokens1: seq<string>, tokens2: seq<string>): (r: real)
    ensures 0.0 <= r <= 1.0
  {
    var set1, set2 := SetOf(tokens1), SetOf(tokens2);
    var intersection := set1 * set2;
    var union := set1 + set2;
    if |union| == 0 then 0.0
    else
      SubsetCard(intersection, union);
      Fraction(|intersection|, |union|);
      |intersection| as real / |union| as real
  }

  /** The coefficient is symmetric; it is 0 exactly when there is no token or the two token
      sets are disjoint, and 1 exactly when the two sets are equal and not empty. */
  lemma JaccardProperties(tokens1: seq<string>, tokens2: seq<string>)
    ensures JaccardSimilarity(tokens1, tokens2) == JaccardSimilarity(tokens2, tokens1)
    ensures JaccardSimilarity(tokens1, tokens2) == 0.0 <==>
      SetOf(tokens1) + SetOf(tokens2) == {} || SetOf(tokens1) !! SetOf(tokens2)
    ensures JaccardSimilarity(tokens1, tokens2) == 1.0 <==>
      SetOf(tokens1) == SetOf(tokens2) && SetOf(tokens1) != {}
  {
    var set1, set2 := SetOf(tokens1), SetOf(tokens2);
    var intersection, union := set1 * set2, set1 + set2;
    assert set2 * set1 == intersection && set2 + set1 == union;
    if |union| != 0 {
      SubsetCard(intersection, union);
      Fraction(|intersection|, |union|);
      if |intersection| == 0 {
        assert intersection == {};
        forall x | x in set1 ensures x !in set2 { assert x !in intersection; }
      }
      if set1 !! set2 {
        assert intersection == {};
      }
      if |intersection| == |union| {
        assert set1 == set2 by {
          assert set1 <= union == intersection;
          assert set2 <= union == intersection;
        }
        assert set1 != {} by {
          var x :| x in union;
        }
      }
      if set1 == set2 {
        assert intersection == union;
      }
    } else {
      assert union == {};
    }
  }

  // ----- the substring score of the simple search -----

  /** `textWords.some(textWord => textWord.includes(queryWord))`. */
  predicate Matches(queryWord: string, textWords: seq<string>) {
    exists j :: 0 <= j < |textWords| && Contains(textWords[j], queryWord)
  }

  predicate AllMatch(queryWords: seq<string>, textWords: seq<string>) {
    forall k :: 0 <= k < |queryWords| ==> Matches(queryWords[k], textWords)
  }

  predicate NoneMatch(queryWords: seq<string>, textWords: seq<string>) {
    forall k :: 0 <= k < |queryWords| ==> !Matches(queryWords[k], textWords)
  }

  /** How many of the query words occur inside some text word. */
  function MatchCount(queryWords: seq<string>, textWords: seq<string>): (n: nat)
    ensures n <= |queryWords|
  {
    if queryWords == [] then 0
    else
      MatchCount(queryWords[..|queryWords| - 1], textWords) +
        (if Matches(queryWords[|queryWords| - 1], textWords) then 1 else 0)
  }

  /** The score `calculateSimilarity` computes, as a function of its two inputs. */
  function SimpleScore(text: string, query: string): real
  {
    var textLower, queryLower := Lower(text), Lower(query);
    if Contains(textLower, queryLower) then 1.0
    else
      var queryWords := SplitWs(queryLower);
      if |queryWords| > 0 then MatchCount(queryWords, SplitWs(textLower)) as real / |queryWords| as real else 0.0
  }

  /** `calculateSimilarity(text, query)`: 1 when the lower-cased query occurs in the
      lower-cased text, otherwise the share of query words found inside some text word. */
  method CalculateSimilarity(text: string, query: string) returns (similarity: real)
    ensures similarity == SimpleScore(text, query)
  {
    var textLower := Lower(text);
    var queryLower := Lower(query);
    if Contains(textLower, queryLower) {
      return 1.0;
    }
    var textWords := SplitWs(textLower);
    var queryWords := SplitWs(queryLower);
    var matches := 0;
    var i := 0;
    while i < |queryWords|
      invariant 0 <= i <= |queryWords|
      invariant matches == MatchCount(queryWords[..i], textWords)
    {
      var queryWord := queryWords[i];
      assert queryWords[..i + 1][..i] == queryWords[..i];
      if exists j :: 0 <= j < |textWords| && Contains(textWords[j], queryWord) {
        matches := matches + 1;
      }
      i := i + 1;
    }
    assert queryWords[..|queryWords|] == queryWords;
    similarity := if |queryWords| > 0 then matches as real / |queryWords| as real else 0.0;
  }

  /** The score lies in [0, 1]. It is 1 when the lower-cased query occurs in the lower-cased
      text, in particular for the empty query, or when every query word occurs inside some
      text word; it is 0 exactly when neither happens for any query word. Splitting never
      gives an empty list, so the `: 0` branch is never taken. */
  lemma SimpleScoreProperties(text: string, query: string)
    ensures 0.0 <= SimpleScore(text, query) <= 1.0
    ensures query == [] ==> SimpleScore(text, query) == 1.0
    ensures SimpleScore(text, query) == 1.0 <==>
      Contains(Lower(text), Lower(query)) || AllMatch(SplitWs(Lower(query)), SplitWs(Lower(text)))
    ensures SimpleScore(text, query) == 0.0 <==>
      !Contains(Lower(text), Lower(query)) && NoneMatch(SplitWs(Lower(query)), SplitWs(Lower(text)))
  {
    var textWords, queryWords := SplitWs(Lower(text)), SplitWs(Lower(query));
    if query == [] { ContainsEmpty(Lower(text)); }
    MatchCountExtremes(queryWords, textWords);
    Fraction(MatchCount(queryWords, textWords), |queryWords|);
    if !Contains(Lower(text), Lower(query)) {
      assert SimpleScore(text, query) == MatchCount(queryWords, textWords) as real / |queryWords| as real;
    }
  }

  /** No query word matches exactly when the count is 0; all do exactly when it is full. */
  lemma {:induction false} MatchCountExtremes(queryWords: seq<string>, textWords: seq<string>)
    ensures MatchCount(queryWords, textWords) == 0 <==> NoneMatch(queryWords, textWords)
    ensures MatchCount(queryWords, textWords) == |queryWords| <==> AllMatch(queryWords, textWords)
  {
    if queryWords != [] {
      var n := |queryWords| - 1;
      var init := queryWords[..n];
      MatchCountExtremes(init, textWords);
      assert forall k :: 0 <= k < n ==> init[k] == queryWords[k];
    }
  }
}
