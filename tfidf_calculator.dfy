/** `TfidfCalculator` of src/core/tfidf-calculator.js: a stateful calculator over a fixed list
    of documents. Words are the whitespace-separated pieces of a document, lower-cased; the
    term frequency of a word is its share of the document's words, the inverse document
    frequency `log(N / df)` over the `N` documents, and a score the product of the two.

    `Math.log` enters as a parameter; the proofs use only the laws stated by `LnLaws`. */
module TfidfCalculation {
  import opened Text
  import opened Seqs
  import opened SearchTokens
  import opened SparseVectors
  import opened TfidfVectors
  import opened RealArith

  // ----- term frequencies -----

  /** `doc.split(/\s+/)` with each word lower-cased. */
  function Words(doc: string): (r: seq<string>)
    ensures |r| >= 1
  {
    LowerAll(SplitWs(doc))
  }

  /** Each distinct word of `words`, carrying one `unit` per occurrence. */
  function Share(words: seq<string>, unit: real): (r: Vector)
    ensures r.Keys == set w | w in words
  {
    map w | w in words :: Units(Count(words, w), unit)
  }

  /** The term-frequency table of one document: each word's share of its words. */
  function TermFrequency(doc: string): Vector
  {
    Share(Words(doc), 1.0 / |Words(doc)| as real)
  }

  /** The term-frequency tables of the documents, in order. */
  function TermFrequencyTables(documents: seq<string>): (r: seq<Vector>)
    ensures |r| == |documents|
  {
    if documents == [] then []
    else TermFrequencyTables(documents[..|documents| - 1]) + [TermFrequency(documents[|documents| - 1])]
  }

  lemma {:induction false} TermFrequencyTablesAt(documents: seq<string>, i: nat)
    requires i < |documents|
    ensures TermFrequencyTables(documents)[i] == TermFrequency(documents[i])
  {
    var n := |documents| - 1;
    if i < n {
      TermFrequencyTablesAt(documents[..n], i);
    }
  }

  /** The sum of a vector's weights. */
  ghost function Total(v: Vector): real
  {
    DotOver(v.Keys, v, map k | k in v :: 1.0)
  }

  /** One more word adds one unit to its entry. */
  lemma ShareSnoc(words: seq<string>, x: string, unit: real)
    ensures Share(words + [x], unit) ==
      Share(words, unit)[x := (if x in Share(words, unit) then Share(words, unit)[x] else 0.0) + unit]
  {
    var a := Share(words + [x], unit);
    var b := Share(words, unit)[x := (if x in Share(words, unit) then Share(words, unit)[x] else 0.0) + unit];
    assert multiset(words + [x]) == multiset(words) + multiset{x};
    forall w ensures w in a <==> w in b { assert w in words + [x] <==> w in words || w == x; }
    forall w | w in a ensures a[w] == b[w] {
      if w == x {
        var c := Count(words, x);
        assert Count(words + [x], x) == c + 1;
        assert a[x] == Units(c + 1, unit) == Units(c, unit) + unit;
        if x !in words {
          assert c == 0;
        }
      } else {
        assert w in words;
        assert Count(words + [x], w) == Count(words, w);
      }
    }
  }

  /** The units of all words add up to one unit per word. */
  lemma {:induction false} ShareTotal(words: seq<string>, unit: real)
    ensures Total(Share(words, unit)) == Units(|words|, unit)
  {
    if words != [] {
      var n := |words| - 1;
      var init, x := words[..n], words[n];
      assert words == init + [x];
      ShareTotal(init, unit);
      ShareSnoc(init, x, unit);
      var s := Share(init, unit);
      var before := if x in s then s[x] else 0.0;
      assert Share(words, unit) == s[x := before + unit];
      TotalUpdate(s, x, before + unit);
      assert Total(Share(words, unit)) == Total(s) + unit;
    }
  }

  /** Setting one entry changes the sum by the difference at that entry. */
  lemma TotalUpdate(s: Vector, x: string, v: real)
    ensures Total(s[x := v]) == Total(s) - (if x in s then s[x] else 0.0) + v
  {
    var s' := s[x := v];
    var ones, ones' := map k | k in s :: 1.0, map k | k in s' :: 1.0;
    var rest := DotOver(s'.Keys - {x}, s', ones');
    DotOverSplit(s'.Keys, s', ones', x);
    DotOverAgree(s'.Keys - {x}, s', ones', s, ones);
    if x in s {
      assert s'.Keys - {x} == s.Keys - {x};
      DotOverSplit(s.Keys, s, ones, x);
    } else {
      assert s'.Keys - {x} == s.Keys;
    }
  }

  /** The keys of a document's table are its lower-cased words, none holding whitespace or an
      upper-case ASCII letter. */
  lemma TermFrequencyKeys(doc: string)
    ensures forall w :: w in TermFrequency(doc) <==>
      exists k :: 0 <= k < |SplitWs(doc)| && Lower(SplitWs(doc)[k]) == w
    ensures forall w :: w in TermFrequency(doc) ==> IsLower(w) && NoSpace(w)
  {
    var pieces := SplitWs(doc);
    forall w | w in TermFrequency(doc) ensures IsLower(w) && NoSpace(w) {
      var k :| 0 <= k < |pieces| && Words(doc)[k] == w;
      assert NoSpace(pieces[k]);
    }
  }

  /** `c` units of `1 / n`, for `0 < c <= n`, are `c / n`, which lies in (0, 1]. */
  lemma UnitsFraction(c: nat, n: nat)
    requires 0 < c <= n
    ensures Units(c, 1.0 / n as real) == c as real / n as real
    ensures 0.0 < Units(c, 1.0 / n as real) <= 1.0
  {
    UnitsProduct(c, 1.0 / n as real);
    Shares(c, n);
    Fraction(c, n);
  }

  /** With one `1 / n` unit per occurrence among `n` words, each word carries its number of
      occurrences over `n`, and the entries add up to 1. */
  lemma ShareFractions(words: seq<string>)
    requires |words| > 0
    ensures forall w :: w in Share(words, 1.0 / |words| as real) ==>
      Share(words, 1.0 / |words| as real)[w] == Count(words, w) as real / |words| as real &&
      0.0 < Share(words, 1.0 / |words| as real)[w] <= 1.0
    ensures Total(Share(words, 1.0 / |words| as real)) == 1.0
  {
    var n := |words|;
    var s := Share(words, 1.0 / n as real);
    forall w | w in s
      ensures s[w] == Count(words, w) as real / n as real
      ensures 0.0 < s[w] <= 1.0
    {
      assert multiset(words)[w] <= |multiset(words)|;
      UnitsFraction(Count(words, w), n);
    }
    ShareTotal(words, 1.0 / n as real);
    UnitsFraction(n, n);
  }

  /** A word's term frequency is its number of occurrences over the number of words, so it lies
      in (0, 1], and the frequencies of a document add up to 1. */
  lemma TermFrequencyValues(doc: string)
    ensures forall w :: w in TermFrequency(doc) ==>
      TermFrequency(doc)[w] == Count(Words(doc), w) as real / |Words(doc)| as real &&
      0.0 < TermFrequency(doc)[w] <= 1.0
    ensures Total(TermFrequency(doc)) == 1.0
  {
    ShareFractions(Words(doc));
  }

  /** A word of a document has a positive term frequency. */
  lemma TermFrequencyPositive(doc: string, w: string)
    requires w in TermFrequency(doc)
    ensures TermFrequency(doc)[w] > 0.0
  {
    TermFrequencyValues(doc);
  }

  /** `calculateTermFrequency`'s arrow function for one document: one pass over the words,
      adding `1 / totalWords` to the entry of each. */
  method TermFrequencyOf(doc: string) returns (termFrequency: Vector)
    ensures termFrequency == TermFrequency(doc)
  {
    var words := SplitWs(doc);
    var totalWords := |words|;
    termFrequency := Tally(words, 1.0 / totalWords as real);
  }

  /** The loop of that arrow function: each word, lower-cased, gets one more `unit`. */
  method Tally(words: seq<string>, unit: real) returns (termFrequency: Vector)
    ensures termFrequency == Share(LowerAll(words), unit)
  {
    termFrequency := map[];
    ghost var lowered := LowerAll(words);
    var i := 0;
    while i < |words|
      invariant 0 <= i <= |words|
      invariant termFrequency == Share(lowered[..i], unit)
    {
      var word := Lower(words[i]);
      assert lowered[..i + 1] == lowered[..i] + [word];
      ShareSnoc(lowered[..i], word, unit);
      termFrequency := termFrequency[word := (if word in termFrequency then termFrequency[word] else 0.0) + unit];
      i := i + 1;
    }
    assert lowered[..|words|] == lowered;
  }

  // ----- document frequencies and IDF -----

  /** The lower-cased words of each document. */
  function WordLists(documents: seq<string>): (r: seq<seq<string>>)
    ensures |r| == |documents|
    ensures forall i :: 0 <= i < |documents| ==> r[i] == Words(documents[i])
  {
    seq(|documents|, i requires 0 <= i < |documents| => Words(documents[i]))
  }

  /** For each word of some document, the number of documents holding it: at least one and at
      most all of them. */
  function DocumentFrequency(documents: seq<string>): (df: map<string, nat>)
    ensures forall w :: w in df ==> 1 <= df[w] <= |documents|
  {
    DfTableBounds(WordLists(documents));
    DfTable(WordLists(documents))
  }

  /** A word has a document frequency exactly when some document holds it, and the frequency
      is the number of documents exactly when every document holds it. */
  lemma DocumentFrequencyExact(documents: seq<string>, w: string)
    ensures w in DocumentFrequency(documents) <==> exists i :: 0 <= i < |documents| && w in Words(documents[i])
    ensures w in DocumentFrequency(documents) ==>
      (DocumentFrequency(documents)[w] == |documents| <==> forall i :: 0 <= i < |documents| ==> w in Words(documents[i]))
  {
    var lists := WordLists(documents);
    FlattenMembers(lists, w);
    DocFreqBounds(lists, w);
  }

  /** `Math.log(totalDocuments / documentFrequency[word])` for every word of a frequency
      table. */
  function IdfTable(documentFrequency: map<string, nat>, totalDocuments: nat, ln: real -> real): (r: Vector)
    requires forall w :: w in documentFrequency ==> documentFrequency[w] > 0
    ensures r.Keys == documentFrequency.Keys
  {
    map w | w in documentFrequency :: ln(totalDocuments as real / documentFrequency[w] as real)
  }

  /** The IDF of every word some document holds. */
  function Idf(documents: seq<string>, ln: real -> real): (r: Vector)
    ensures r.Keys == DocumentFrequency(documents).Keys
  {
    IdfTable(DocumentFrequency(documents), |documents|, ln)
  }

  /** With a monotone logarithm, no IDF is negative, and an IDF is 0 exactly for a word that
      every document holds. */
  lemma IdfValues(documents: seq<string>, ln: real -> real, w: string)
    requires LnLaws(ln) && w in Idf(documents, ln)
    ensures Idf(documents, ln)[w] >= 0.0
    ensures Idf(documents, ln)[w] == 0.0 <==> forall i :: 0 <= i < |documents| ==> w in Words(documents[i])
  {
    var df := DocumentFrequency(documents);
    var q := |documents| as real / df[w] as real;
    DocumentFrequencyExact(documents, w);
    QuotientAtLeastOne(|documents| as real, df[w] as real);
    QuotientOne(|documents| as real, df[w] as real);
    LnSign(ln, q);
  }

  /** Every word of every document has an IDF. */
  lemma TermsHaveIdf(documents: seq<string>, ln: real -> real)
    ensures forall k :: 0 <= k < |documents| ==> TermFrequencyTables(documents)[k].Keys <= Idf(documents, ln).Keys
  {
    var lists := WordLists(documents);
    forall k, w | 0 <= k < |documents| && w in TermFrequencyTables(documents)[k] ensures w in Idf(documents, ln) {
      TermFrequencyTablesAt(documents, k);
      assert w in lists[k];
      FlattenMembers(lists, w);
    }
  }

  // ----- TF-IDF -----

  /** The TF-IDF weight of each word of a table. */
  function Weigh(termFrequency: Vector, idf: Vector): (r: Vector)
    requires termFrequency.Keys <= idf.Keys
    ensures r.Keys == termFrequency.Keys
  {
    map w | w in termFrequency :: termFrequency[w] * idf[w]
  }

  function WeighAll(termFrequencies: seq<Vector>, idf: Vector): (r: seq<Vector>)
    requires forall k :: 0 <= k < |termFrequencies| ==> termFrequencies[k].Keys <= idf.Keys
    ensures |r| == |termFrequencies|
  {
    if termFrequencies == [] then []
    else
      var n := |termFrequencies| - 1;
      WeighAll(termFrequencies[..n], idf) + [Weigh(termFrequencies[n], idf)]
  }

  /** The TF-IDF tables of the documents. */
  function Scores(documents: seq<string>, ln: real -> real): (r: seq<Vector>)
    ensures |r| == |documents|
  {
    TermsHaveIdf(documents, ln);
    WeighAll(TermFrequencyTables(documents), Idf(documents, ln))
  }

  lemma {:induction false} WeighAllAt(termFrequencies: seq<Vector>, idf: Vector, i: nat)
    requires forall k :: 0 <= k < |termFrequencies| ==> termFrequencies[k].Keys <= idf.Keys
    requires i < |termFrequencies|
    ensures WeighAll(termFrequencies, idf)[i] == Weigh(termFrequencies[i], idf)
  {
    var n := |termFrequencies| - 1;
    if i < n {
      WeighAllAt(termFrequencies[..n], idf, i);
    }
  }

  /** A table weighed against older IDF values overridden by new ones for all of its words
      is the table weighed against the new values. */
  lemma {:induction false} WeighAllOverride(termFrequencies: seq<Vector>, before: Vector, idf: Vector)
    requires forall k :: 0 <= k < |termFrequencies| ==> termFrequencies[k].Keys <= idf.Keys
    ensures WeighAll(termFrequencies, before + idf) == WeighAll(termFrequencies, idf)
  {
    if termFrequencies != [] {
      var n := |termFrequencies| - 1;
      WeighAllOverride(termFrequencies[..n], before, idf);
      var tf := termFrequencies[n];
      var a, b := Weigh(tf, before + idf), Weigh(tf, idf);
      forall w | w in a ensures a[w] == b[w] { assert (before + idf)[w] == idf[w]; }
      assert a == b;
    }
  }

  /** A document's scores are its term-frequency table weighed against the IDF table. */
  lemma ScoresAt(documents: seq<string>, ln: real -> real, i: nat)
    requires i < |documents|
    ensures TermFrequency(documents[i]).Keys <= Idf(documents, ln).Keys
    ensures Scores(documents, ln)[i] == Weigh(TermFrequency(documents[i]), Idf(documents, ln))
  {
    var tfs, idf := TermFrequencyTables(documents), Idf(documents, ln);
    TermsHaveIdf(documents, ln);
    assert Scores(documents, ln) == WeighAll(tfs, idf);
    TermFrequencyTablesAt(documents, i);
    WeighAllAt(tfs, idf, i);
  }

  /** With a monotone logarithm no score is negative, and a word's score is 0 exactly when
      every document holds it. */
  lemma ScoreSign(documents: seq<string>, ln: real -> real, i: nat, w: string)
    requires LnLaws(ln) && i < |documents| && w in Scores(documents, ln)[i]
    ensures Scores(documents, ln)[i][w] >= 0.0
    ensures Scores(documents, ln)[i][w] == 0.0 <==> forall j :: 0 <= j < |documents| ==> w in Words(documents[j])
  {
    var tf, idf := TermFrequency(documents[i]), Idf(documents, ln);
    ScoresAt(documents, ln, i);
    TermFrequencyPositive(documents[i], w);
    IdfValues(documents, ln, w);
    WeighSign(tf, idf, w);
  }

  /** A word with a positive term frequency and an IDF that is not negative gets a weight that
      is not negative, and 0 exactly when its IDF is. */
  lemma WeighSign(tf: Vector, idf: Vector, w: string)
    requires tf.Keys <= idf.Keys && w in tf && tf[w] > 0.0 && idf[w] >= 0.0
    ensures Weigh(tf, idf)[w] >= 0.0
    ensures Weigh(tf, idf)[w] == 0.0 <==> idf[w] == 0.0
  {
    if idf[w] > 0.0 { PositiveProduct(tf[w], idf[w]); }
  }

  // ----- the class -----

  class TfidfCalculator {
    var documents: seq<string>
    var termFrequencies: seq<Vector>
    var inverseDocumentFrequencies: Vector
    var tfidfScores: seq<Vector>

    constructor(documents: seq<string>)
      ensures this.documents == documents
      ensures termFrequencies == [] && inverseDocumentFrequencies == map[] && tfidfScores == []
    {
      this.documents := documents;
      termFrequencies := [];
      inverseDocumentFrequencies := map[];
      tfidfScores := [];
    }

    /** `calculateTermFrequency()`: one table per document, in document order. */
    method CalculateTermFrequency()
      modifies this
      ensures termFrequencies == TermFrequencyTables(documents)
      ensures documents == old(documents)
      ensures inverseDocumentFrequencies == old(inverseDocumentFrequencies) && tfidfScores == old(tfidfScores)
    {
      var tfs: seq<Vector> := [];
      var i := 0;
      while i < |documents|
        modifies {}
        invariant 0 <= i <= |documents|
        invariant tfs == TermFrequencyTables(documents[..i])
      {
        var termFrequency := TermFrequencyOf(documents[i]);
        assert documents[..i + 1][..i] == documents[..i];
        tfs := tfs + [termFrequency];
        i := i + 1;
      }
      assert documents[..i] == documents;
      termFrequencies := tfs;
    }

    /** `calculateInverseDocumentFrequency()`: counts the documents holding each word, then
        writes `log(N / df)` into the IDF table word by word. The table is not cleared first,
        so entries of an earlier call survive unless overwritten. */
    method CalculateInverseDocumentFrequency(ln: real -> real)
      modifies this
      ensures inverseDocumentFrequencies == old(inverseDocumentFrequencies) + Idf(documents, ln)
      ensures documents == old(documents)
      ensures termFrequencies == old(termFrequencies) && tfidfScores == old(tfidfScores)
    {
      var totalDocuments := |documents|;
      var documentFrequency := DocumentFrequencyOf(documents);
      inverseDocumentFrequencies := WriteIdf(inverseDocumentFrequencies, documentFrequency, totalDocuments, ln);
    }

    /** `calculateTfidf()`: recomputes both tables, then weighs every document's words. */
    method CalculateTfidf(ln: real -> real)
      modifies this
      ensures documents == old(documents)
      ensures termFrequencies == TermFrequencyTables(documents)
      ensures inverseDocumentFrequencies == old(inverseDocumentFrequencies) + Idf(documents, ln)
      ensures tfidfScores == Scores(documents, ln)
    {
      CalculateTermFrequency();
      CalculateInverseDocumentFrequency(ln);
      TermsHaveIdf(documents, ln);
      var scores := WeighTables(termFrequencies, inverseDocumentFrequencies);
      WeighAllOverride(termFrequencies, old(inverseDocumentFrequencies), Idf(documents, ln));
      tfidfScores := scores;
    }

    /** `getTfidfScores()`: the scores depend on the documents alone, which no method
        changes, so every call returns the same tables. */
    method GetTfidfScores(ln: real -> real) returns (scores: seq<Vector>)
      modifies this
      ensures scores == tfidfScores == Scores(documents, ln)
      ensures documents == old(documents)
      ensures termFrequencies == TermFrequencyTables(documents)
      ensures inverseDocumentFrequencies == old(inverseDocumentFrequencies) + Idf(documents, ln)
    {
      CalculateTfidf(ln);
      scores := tfidfScores;
    }
  }

  /** The `forEach` of `calculateInverseDocumentFrequency`: one pass per document over the
      set of its lower-cased words. */
  method DocumentFrequencyOf(documents: seq<string>) returns (documentFrequency: map<string, nat>)
    ensures documentFrequency == DocumentFrequency(documents)
  {
    ghost var lists := WordLists(documents);
    documentFrequency := map[];
    var i := 0;
    while i < |documents|
      invariant 0 <= i <= |documents|
      invariant documentFrequency == DfTable(lists[..i])
    {
      var uniqueWords := LowerAll(SplitWs(documents[i]));
      var next := CountOnce(documentFrequency, uniqueWords);
      assert lists[..i + 1] == lists[..i] + [uniqueWords];
      forall t ensures t in next <==> t in DfTable(lists[..i + 1]) {
        DfTableSnoc(lists[..i], uniqueWords, t);
      }
      forall t | t in next ensures next[t] == DfTable(lists[..i + 1])[t] {
        DfTableSnoc(lists[..i], uniqueWords, t);
      }
      documentFrequency := next;
      i := i + 1;
    }
    assert lists[..i] == lists;
  }

  /** The second loop of `calculateInverseDocumentFrequency`: writes the IDF of every word
      of the frequency table over the entries already in `table`. */
  method WriteIdf(table: Vector, documentFrequency: map<string, nat>, totalDocuments: nat, ln: real -> real)
    returns (written: Vector)
    requires forall w :: w in documentFrequency ==> documentFrequency[w] > 0
    ensures written == table + IdfTable(documentFrequency, totalDocuments, ln)
  {
    ghost var idf := IdfTable(documentFrequency, totalDocuments, ln);
    written := table;
    var remaining := documentFrequency.Keys;
    ghost var done: set<string> := {};
    while remaining != {}
      invariant remaining <= documentFrequency.Keys && done == documentFrequency.Keys - remaining
      invariant forall w :: w in written <==> w in table || w in done
      invariant forall w :: w in done ==> written[w] == idf[w]
      invariant forall w :: w in written && w !in done ==> written[w] == table[w]
      decreases |remaining|
    {
      var word :| word in remaining;
      written := written[word := ln(totalDocuments as real / documentFrequency[word] as real)];
      remaining := remaining - {word};
      done := done + {word};
    }
    Overridden(written, table, idf);
  }

  /** A map holding the keys of `table` and `newer`, with the values of `newer` where it has
      them and those of `table` elsewhere, is `table + newer`. */
  lemma Overridden(written: Vector, table: Vector, newer: Vector)
    requires forall w :: w in written <==> w in table || w in newer
    requires forall w :: w in newer ==> written[w] == newer[w]
    requires forall w :: w in written && w !in newer ==> written[w] == table[w]
    ensures written == table + newer
  {
  }

  /** The loop of `calculateTfidf` over the documents' tables, in order. */
  method WeighTables(termFrequencies: seq<Vector>, idf: Vector) returns (scores: seq<Vector>)
    requires forall k :: 0 <= k < |termFrequencies| ==> termFrequencies[k].Keys <= idf.Keys
    ensures scores == WeighAll(termFrequencies, idf)
  {
    scores := [];
    var i := 0;
    while i < |termFrequencies|
      invariant 0 <= i <= |termFrequencies|
      invariant scores == WeighAll(termFrequencies[..i], idf)
    {
      var tfidf := WeighTerms(termFrequencies[i], idf);
      assert termFrequencies[..i + 1][..i] == termFrequencies[..i];
      scores := scores + [tfidf];
      i := i + 1;
    }
    assert termFrequencies[..i] == termFrequencies;
  }

  /** The loop of `calculateTfidf` over the words of one table. */
  method WeighTerms(termFrequency: Vector, idf: Vector) returns (tfidf: Vector)
    requires termFrequency.Keys <= idf.Keys
    ensures tfidf == Weigh(termFrequency, idf)
  {
    tfidf := map[];
    var remaining := termFrequency.Keys;
    while remaining != {}
      invariant remaining <= termFrequency.Keys
      invariant forall w :: w in tfidf <==> w in termFrequency && w !in remaining
      invariant forall w :: w in tfidf ==> tfidf[w] == termFrequency[w] * idf[w]
      decreases |remaining|
    {
      var word :| word in remaining;
      tfidf := tfidf[word := termFrequency[word] * idf[word]];
      remaining := remaining - {word};
    }
    forall w ensures w in tfidf <==> w in Weigh(termFrequency, idf) { }
    forall w | w in tfidf ensures tfidf[w] == Weigh(termFrequency, idf)[w] { }
  }

  /** Two calls of `getTfidfScores` on one calculator return equal scores. */
  method GetTfidfScoresTwice(calculator: TfidfCalculator, ln: real -> real) returns (first: seq<Vector>, second: seq<Vector>)
    modifies calculator
    ensures first == second
  {
    first := calculator.GetTfidfScores(ln);
    second := calculator.GetTfidfScores(ln);
  }
}
