/** The searches of src/app.js and the dispatcher that chooses one: the simple substring
    search, the Jaccard search over basic tokens, and the TF-IDF search under its three
    profiles. Each search scores every document, keeps those above a threshold, ranks them
    and keeps the first `topN` (module `Ranking`). */
module Search {
  import opened Wrappers
  import opened Text
  import opened Seqs
  import opened SearchTokens
  import opened SparseVectors
  import opened TfidfVectors
  import opened Similarity
  import opened Ranking

  /** What a search returns (execution and preprocessing times are not modelled). */
  datatype SearchOutput = SearchOutput(results: seq<SearchResult>, algorithm: string, vocabSize: nat)

  /** `documents.map(doc => doc.text)`. */
  function Texts(documents: seq<Document>): (r: seq<string>)
    ensures |r| == |documents|
    ensures forall i :: 0 <= i < |documents| ==> r[i] == documents[i].text
  {
    seq(|documents|, i requires 0 <= i < |documents| => documents[i].text)
  }

  // ----- the Jaccard search -----

  /** The basic tokens of each document. */
  function BasicTokensOf(documents: seq<Document>): (r: seq<seq<string>>)
    ensures |r| == |documents|
  {
    seq(|documents|, i requires 0 <= i < |documents| => BasicTokens(documents[i].text))
  }

  /** The Jaccard coefficient of each document's tokens with the query's. */
  function JaccardScores(queryTokens: seq<string>, docTokens: seq<seq<string>>): (r: seq<real>)
    ensures |r| == |docTokens|
    ensures forall i :: 0 <= i < |docTokens| ==> r[i] == JaccardSimilarity(queryTokens, docTokens[i])
  {
    seq(|docTokens|, i requires 0 <= i < |docTokens| => JaccardSimilarity(queryTokens, docTokens[i]))
  }

  /** The outcome of `searchJaccard`: documents with a positive coefficient, ranked; the
      vocabulary size is the number of distinct query tokens. */
  function JaccardSearch(documents: seq<Document>, query: string, topN: int): SearchOutput
  {
    var queryTokens := BasicTokens(query);
    SearchOutput(Rank(documents, JaccardScores(queryTokens, BasicTokensOf(documents)), 0.0, topN),
                 "Jaccard係数", |SetOf(queryTokens)|)
  }

  /** `searchJaccard(documents, query, topN)`. */
  method SearchJaccard(documents: seq<Document>, query: string, topN: int) returns (output: SearchOutput)
    ensures output == JaccardSearch(documents, query, topN)
  {
    var queryTokens := GetTokensBasic(query);
    ghost var docTokens := BasicTokensOf(documents);
    ghost var scores := JaccardScores(queryTokens, docTokens);
    var results: seq<SearchResult> := [];
    var i := 0;
    while i < |documents|
      invariant i <= |documents|
      invariant results == Hits(documents[..i], scores[..i], 0.0)
    {
      var tokens := GetTokensBasic(documents[i].text);
      assert tokens == docTokens[i];
      var similarity := JaccardSimilarity(queryTokens, tokens);
      HitsSnoc(documents, scores, 0.0, i);
      if similarity > 0.0 {
        results := results + [SearchResult(i + 1, similarity, documents[i].text)];
      }
      i := i + 1;
    }
    assert documents[..i] == documents && scores[..i] == scores;
    results := SortBySimilarity(results);
    output := SearchOutput(JsSlice(results, 0, topN), "Jaccard係数", |SetOf(queryTokens)|);
  }

  /** Every Jaccard result is a document sharing a token with the query, scored by its
      coefficient; a document with the same tokens as the query, when there are any, scores 1
      and puts a result of score 1 first. Stated over any token lists, the Jaccard search
      being the case of the basic tokens. */
  lemma JaccardRankProperties(documents: seq<Document>, queryTokens: seq<string>, docTokens: seq<seq<string>>, topN: int)
    requires |docTokens| == |documents|
    ensures forall x :: x in Rank(documents, JaccardScores(queryTokens, docTokens), 0.0, topN) ==>
      1 <= x.index <= |documents| && x.text == documents[x.index - 1].text &&
      x.similarity == JaccardSimilarity(queryTokens, docTokens[x.index - 1]) &&
      !(SetOf(queryTokens) !! SetOf(docTokens[x.index - 1]))
    ensures forall i :: 0 <= i < |documents| && topN >= 1 && SetOf(docTokens[i]) == SetOf(queryTokens) != {} ==>
      |Rank(documents, JaccardScores(queryTokens, docTokens), 0.0, topN)| >= 1 &&
      Rank(documents, JaccardScores(queryTokens, docTokens), 0.0, topN)[0].similarity == 1.0
  {
    var scores := JaccardScores(queryTokens, docTokens);
    var r := Rank(documents, scores, 0.0, topN);
    RankShape(documents, scores, 0.0, topN);
    forall x | x in r
      ensures x.similarity == JaccardSimilarity(queryTokens, docTokens[x.index - 1])
      ensures !(SetOf(queryTokens) !! SetOf(docTokens[x.index - 1]))
    {
      assert IsHit(x, documents, scores, 0.0);
      JaccardProperties(queryTokens, docTokens[x.index - 1]);
    }
    forall i | 0 <= i < |documents| && topN >= 1 && SetOf(docTokens[i]) == SetOf(queryTokens) != {}
      ensures |r| >= 1 && r[0].similarity == 1.0
    {
      JaccardProperties(queryTokens, docTokens[i]);
      TopResult(documents, scores, 0.0, topN, i);
      assert r[0] in r;
      assert IsHit(r[0], documents, scores, 0.0);
      assert scores[r[0].index - 1] <= 1.0;
    }
  }

  // ----- the TF-IDF search -----

  /** Cosine scores at or below this value are dropped as noise. */
  const TfidfThreshold: real := 0.001

  /** The vectors of the documents followed by the query. */
  ghost function TfidfVectorsOf(documents: seq<Document>, query: string, tokenize: TokenizerFunction,
                                options: Options, ln: real -> real, sqrt: real -> real): (r: seq<Vector>)
    requires SqrtLaws(sqrt)
    ensures |r| == |documents| + 1
  {
    VectorsOf(AllTokens(Texts(documents) + [query], tokenize, options), options, ln, sqrt)
  }

  /** The inner product of the query vector with each document vector. */
  ghost function TfidfScores(documents: seq<Document>, query: string, tokenize: TokenizerFunction,
                             options: Options, ln: real -> real, sqrt: real -> real): (r: seq<real>)
    requires SqrtLaws(sqrt)
    ensures |r| == |documents|
  {
    var vs := TfidfVectorsOf(documents, query, tokenize, options, ln, sqrt);
    seq(|documents|, i requires 0 <= i < |documents| => Dot(vs[|documents|], vs[i]))
  }

  /** The outcome of `searchTFIDF`: documents whose cosine with the query exceeds the
      threshold, ranked; the vocabulary size is that of the documents and the query. */
  ghost function TfidfSearch(documents: seq<Document>, query: string, topN: int, tokenize: TokenizerFunction,
                             algorithmName: string, options: Options, ln: real -> real, sqrt: real -> real): SearchOutput
    requires SqrtLaws(sqrt)
  {
    SearchOutput(Rank(documents, TfidfScores(documents, query, tokenize, options, ln, sqrt), TfidfThreshold, topN),
                 algorithmName, |Dedup(Flatten(AllTokens(Texts(documents) + [query], tokenize, options)))|)
  }

  /** `searchTFIDF(documents, query, topN, tokenizerFunction, algorithmName, useAdvanced,
      options)`. */
  method SearchTfidf(documents: seq<Document>, query: string, topN: int, tokenizerFunction: TokenizerFunction,
                     algorithmName: string, options: Options, ln: real -> real, sqrt: real -> real)
    returns (output: SearchOutput)
    requires SqrtLaws(sqrt)
    ensures output == TfidfSearch(documents, query, topN, tokenizerFunction, algorithmName, options, ln, sqrt)
  {
    var docTexts := Texts(documents);
    var tfidfData := ComputeTfidf(docTexts, query, tokenizerFunction, options, ln, sqrt);
    ghost var scores := TfidfScores(documents, query, tokenizerFunction, options, ln, sqrt);
    var results := CosineHits(documents, tfidfData.queryVector, tfidfData.docVectors, scores);
    results := SortBySimilarity(results);
    output := SearchOutput(JsSlice(results, 0, topN), algorithmName, tfidfData.vocabSize);
  }

  /** The loop of `searchTFIDF`: the documents whose cosine with the query vector exceeds the
      threshold, in document order. */
  method CosineHits(documents: seq<Document>, queryVector: Vector, docVectors: seq<Vector>, ghost scores: seq<real>)
    returns (results: seq<SearchResult>)
    requires |docVectors| == |scores| == |documents|
    requires forall i :: 0 <= i < |documents| ==> scores[i] == Dot(queryVector, docVectors[i])
    ensures results == Hits(documents, scores, TfidfThreshold)
  {
    results := [];
    var i := 0;
    while i < |documents|
      invariant i <= |documents|
      invariant results == Hits(documents[..i], scores[..i], TfidfThreshold)
    {
      var similarity := CosineSimilarity(queryVector, docVectors[i]);
      HitsSnoc(documents, scores, TfidfThreshold, i);
      if similarity > TfidfThreshold {
        results := results + [SearchResult(i + 1, similarity, documents[i].text)];
      }
      i := i + 1;
    }
    assert documents[..i] == documents && scores[..i] == scores;
  }

  /** A document's TF-IDF score is 0 when it shares no token with the query, so it is never
      returned; every result is a document scoring above the threshold. */
  lemma TfidfSearchProperties(documents: seq<Document>, query: string, topN: int, tokenize: TokenizerFunction,
                              algorithmName: string, options: Options, ln: real -> real, sqrt: real -> real)
    requires SqrtLaws(sqrt)
    ensures forall i ::
      (0 <= i < |documents| && SetOf(tokenize(documents[i].text, options)) !! SetOf(tokenize(query, options))) ==>
      TfidfScores(documents, query, tokenize, options, ln, sqrt)[i] == 0.0
    ensures forall x :: x in TfidfSearch(documents, query, topN, tokenize, algorithmName, options, ln, sqrt).results ==>
      IsHit(x, documents, TfidfScores(documents, query, tokenize, options, ln, sqrt), TfidfThreshold)
  {
    var scores := TfidfScores(documents, query, tokenize, options, ln, sqrt);
    forall i | 0 <= i < |documents| &&
      SetOf(tokenize(documents[i].text, options)) !! SetOf(tokenize(query, options))
      ensures scores[i] == 0.0
    {
      TfidfScoreIs(documents, query, tokenize, options, ln, sqrt, i);
    }
    RankShape(documents, scores, TfidfThreshold, topN);
  }

  /** Under the smoothed IDF, which every profile of the dispatcher uses, a document scores
      above 0 exactly when it shares a token with the query. */
  lemma ImprovedTfidfScorePositive(documents: seq<Document>, query: string, tokenize: TokenizerFunction,
                                   options: Options, ln: real -> real, sqrt: real -> real, i: nat)
    requires SqrtLaws(sqrt) && LnLaws(ln) && UseImprovedIdf(options) && i < |documents|
    ensures TfidfScores(documents, query, tokenize, options, ln, sqrt)[i] > 0.0 <==>
      !(SetOf(tokenize(documents[i].text, options)) !! SetOf(tokenize(query, options)))
  {
    TfidfScoreIs(documents, query, tokenize, options, ln, sqrt, i);
  }

  /** A score is the inner product of the two texts' vectors, whose token lists are those
      of the document and of the query. */
  lemma TfidfScoreIs(documents: seq<Document>, query: string, tokenize: TokenizerFunction,
                     options: Options, ln: real -> real, sqrt: real -> real, i: nat)
    requires SqrtLaws(sqrt) && i < |documents|
    ensures SetOf(tokenize(documents[i].text, options)) !! SetOf(tokenize(query, options)) ==>
      TfidfScores(documents, query, tokenize, options, ln, sqrt)[i] == 0.0
    ensures LnLaws(ln) && UseImprovedIdf(options) ==>
      (TfidfScores(documents, query, tokenize, options, ln, sqrt)[i] > 0.0 <==>
       !(SetOf(tokenize(documents[i].text, options)) !! SetOf(tokenize(query, options))))
  {
    var n := |documents|;
    var allTokens := AllTokens(Texts(documents) + [query], tokenize, options);
    assert allTokens[i] == tokenize(documents[i].text, options);
    assert allTokens[n] == tokenize(query, options);
    if SetOf(tokenize(documents[i].text, options)) !! SetOf(tokenize(query, options)) {
      DotOfDisjoint(allTokens, options, ln, sqrt, i, n);
    }
    if LnLaws(ln) && UseImprovedIdf(options) {
      DotOfImproved(allTokens, options, ln, sqrt, i, n);
    }
  }

  // ----- the simple search -----

  /** The substring score of each document against the query. */
  function SimpleScores(documents: seq<Document>, query: string): (r: seq<real>)
    ensures |r| == |documents|
    ensures forall i :: 0 <= i < |documents| ==> r[i] == SimpleScore(documents[i].text, query)
  {
    seq(|documents|, i requires 0 <= i < |documents| => SimpleScore(documents[i].text, query))
  }

  /** The outcome of `performSimpleSearch`: documents with a positive substring score,
      ranked; the vocabulary size is the number of whitespace-separated query pieces. */
  function SimpleSearch(documents: seq<Document>, query: string, topN: int): SearchOutput
  {
    SearchOutput(Rank(documents, SimpleScores(documents, query), 0.0, topN), "単純部分一致", |SplitWs(query)|)
  }

  /** `performSimpleSearch(documents, query, topN)`. */
  method PerformSimpleSearch(documents: seq<Document>, query: string, topN: int) returns (output: SearchOutput)
    ensures output == SimpleSearch(documents, query, topN)
  {
    ghost var scores := SimpleScores(documents, query);
    var results: seq<SearchResult> := [];
    var i := 0;
    while i < |documents|
      invariant i <= |documents|
      invariant results == Hits(documents[..i], scores[..i], 0.0)
    {
      var similarity := CalculateSimilarity(documents[i].text, query);
      HitsSnoc(documents, scores, 0.0, i);
      if similarity > 0.0 {
        results := results + [SearchResult(i + 1, similarity, documents[i].text)];
      }
      i := i + 1;
    }
    assert documents[..i] == documents && scores[..i] == scores;
    results := SortBySimilarity(results);
    output := SearchOutput(JsSlice(results, 0, topN), "単純部分一致", |SplitWs(query)|);
  }

  /** Every simple-search result is a document in which the query or one of its words occurs
      (ignoring ASCII case), scored in (0, 1]. */
  lemma SimpleSearchResults(documents: seq<Document>, query: string, topN: int)
    ensures forall x :: x in SimpleSearch(documents, query, topN).results ==>
      1 <= x.index <= |documents| && x.text == documents[x.index - 1].text &&
      x.similarity == SimpleScore(x.text, query) && 0.0 < x.similarity <= 1.0 &&
      (Contains(Lower(x.text), Lower(query)) || !NoneMatch(SplitWs(Lower(query)), SplitWs(Lower(x.text))))
  {
    var scores := SimpleScores(documents, query);
    var r := SimpleSearch(documents, query, topN).results;
    RankShape(documents, scores, 0.0, topN);
    forall x | x in r
      ensures x.similarity == SimpleScore(x.text, query) && 0.0 < x.similarity <= 1.0
      ensures Contains(Lower(x.text), Lower(query)) || !NoneMatch(SplitWs(Lower(query)), SplitWs(Lower(x.text)))
    {
      assert IsHit(x, documents, scores, 0.0);
      var i := x.index - 1;
      assert x.text == documents[i].text && x.similarity == scores[i];
      SimplePositive(x.text, query);
    }
  }

  /** A positive substring score is at most 1 and means the query or one of its words occurs. */
  lemma SimplePositive(text: string, query: string)
    requires SimpleScore(text, query) > 0.0
    ensures SimpleScore(text, query) <= 1.0
    ensures Contains(Lower(text), Lower(query)) || !NoneMatch(SplitWs(Lower(query)), SplitWs(Lower(text)))
  {
    SimpleScoreProperties(text, query);
  }

  /** A document holding the whole query (ignoring ASCII case) scores 1, the highest score,
      so the first result scores 1. */
  lemma SimpleSearchTop(documents: seq<Document>, query: string, topN: int, i: nat)
    requires i < |documents| && topN >= 1 && Contains(Lower(documents[i].text), Lower(query))
    ensures |SimpleSearch(documents, query, topN).results| >= 1
    ensures SimpleSearch(documents, query, topN).results[0].similarity == 1.0
  {
    var scores := SimpleScores(documents, query);
    forall k | 0 <= k < |documents| ensures scores[k] <= 1.0 {
      SimpleScoreProperties(documents[k].text, query);
    }
    SimpleScoreProperties(documents[i].text, query);
    TopScoreOne(documents, scores, 0.0, topN, i);
  }

  // ----- the dispatcher -----

  /** Why `performSearch` gives up without searching (it reports on the console and returns
      nothing). */
  datatype SearchError = NoDocuments | UnknownAlgorithm(name: string)

  datatype Algorithm = Simple | Jaccard | TfidfBasic | TfidfAdvanced | TfidfUltra

  /** The name each algorithm is selected by. */
  function AlgorithmName(a: Algorithm): string
  {
    match a
    case Simple => "simple"
    case Jaccard => "jaccard"
    case TfidfBasic => "tfidf_basic"
    case TfidfAdvanced => "tfidf_advanced"
    case TfidfUltra => "tfidf_ultra"
  }

  /** The `switch (algorithm)`: one of the five names, or none. */
  function ParseAlgorithm(name: string): Option<Algorithm>
  {
    if name == "simple" then Some(Simple)
    else if name == "jaccard" then Some(Jaccard)
    else if name == "tfidf_basic" then Some(TfidfBasic)
    else if name == "tfidf_advanced" then Some(TfidfAdvanced)
    else if name == "tfidf_ultra" then Some(TfidfUltra)
    else None
  }

  /** Parsing inverts naming: every algorithm is selected by its name and by no other
      string, and every other string is rejected. */
  lemma ParseAlgorithmInvertsName(name: string, a: Algorithm)
    ensures ParseAlgorithm(AlgorithmName(a)) == Some(a)
    ensures ParseAlgorithm(name) == Some(a) <==> name == AlgorithmName(a)
    ensures ParseAlgorithm(name) == None <==>
      name !in {"simple", "jaccard", "tfidf_basic", "tfidf_advanced", "tfidf_ultra"}
  {
  }

  predicate IsTfidf(a: Algorithm) { a == TfidfBasic || a == TfidfAdvanced || a == TfidfUltra }

  /** `getTokensBasic` ignores the options it is handed. */
  function BasicTokenizer(text: string, options: Options): seq<string> { BasicTokens(text) }

  /** The tokenizer, display name and options each TF-IDF profile hands to `searchTFIDF`. */
  function ProfileTokenizer(a: Algorithm): TokenizerFunction
    requires IsTfidf(a)
  {
    if a == TfidfBasic then BasicTokenizer else AdvancedTokens
  }

  function ProfileName(a: Algorithm): string
    requires IsTfidf(a)
  {
    match a
    case TfidfBasic => "TF-IDF（基本）"
    case TfidfAdvanced => "TF-IDF（高精度）"
    case TfidfUltra => "TF-IDF（Ultra）"
  }

  function ProfileOptions(a: Algorithm): Options
    requires IsTfidf(a)
  {
    match a
    case TfidfBasic => NoOptions
    case TfidfAdvanced => Options(Some(true), Some(1.5), Some(1.2), None, None)
    case TfidfUltra => Options(Some(true), Some(2.0), Some(1.5), Some(true), Some(true))
  }

  /** Every profile normalises to unit length and uses the smoothed IDF (explicitly or by
      default); the advanced profile repeats English words once and katakana words twice,
      the ultra profile both twice, and both drop stopwords. */
  lemma ProfileSettings(a: Algorithm)
    requires IsTfidf(a)
    ensures UseL2Norm(ProfileOptions(a)) && UseImprovedIdf(ProfileOptions(a))
    ensures a != TfidfBasic ==> UseStopwords(ProfileOptions(a))
    ensures a == TfidfAdvanced ==>
      Copies(EnglishWeight(ProfileOptions(a))) == 1 && Copies(KatakanaWeight(ProfileOptions(a))) == 2
    ensures a == TfidfUltra ==>
      Copies(EnglishWeight(ProfileOptions(a))) == 2 && Copies(KatakanaWeight(ProfileOptions(a))) == 2
  {
    CopiesOfWeights();
  }

  /** `line.trim()` is truthy: the line holds something besides whitespace. */
  predicate NonBlank(line: string) { Trim(line) != [] }

  /** `lines.filter(keep).map(line => ({ text: line }))`. */
  function LinesWhere(lines: seq<string>, keep: string -> bool): (r: seq<Document>)
    ensures |r| <= |lines|
  {
    if lines == [] then []
    else
      var n := |lines| - 1;
      LinesWhere(lines[..n], keep) + (if keep(lines[n]) then [Document(lines[n])] else [])
  }

  /** The documents of a file: its non-blank lines, in order. */
  function DocumentsOf(fileContent: string): seq<Document>
  {
    LinesWhere(SplitLines(fileContent), NonBlank)
  }

  /** The filter keeps exactly the lines it is asked to keep. */
  lemma {:induction false} LinesWhereExact(lines: seq<string>, keep: string -> bool)
    ensures forall d :: d in LinesWhere(lines, keep) ==> d.text in lines && keep(d.text)
    ensures forall k :: 0 <= k < |lines| && keep(lines[k]) ==> Document(lines[k]) in LinesWhere(lines, keep)
  {
    if lines != [] {
      var n := |lines| - 1;
      var init := lines[..n];
      LinesWhereExact(init, keep);
      forall d | d in LinesWhere(lines, keep) ensures d.text in lines {
        if d in LinesWhere(init, keep) {
          var k :| 0 <= k < n && init[k] == d.text;
          assert lines[k] == d.text;
        }
      }
      forall k | 0 <= k < n && keep(lines[k]) ensures Document(lines[k]) in LinesWhere(lines, keep) {
        assert init[k] == lines[k];
      }
    }
  }

  /** Each document is a non-blank line of the file, holding no line feed, and every
      non-blank line is a document; there is none exactly when every line is blank. */
  lemma DocumentsOfProperties(fileContent: string)
    ensures forall d :: d in DocumentsOf(fileContent) ==>
      d.text in SplitLines(fileContent) && Trim(d.text) != [] && '\n' !in d.text
    ensures forall k :: 0 <= k < |SplitLines(fileContent)| && Trim(SplitLines(fileContent)[k]) != [] ==>
      Document(SplitLines(fileContent)[k]) in DocumentsOf(fileContent)
    ensures DocumentsOf(fileContent) == [] <==>
      forall k :: 0 <= k < |SplitLines(fileContent)| ==> Trim(SplitLines(fileContent)[k]) == []
  {
    NonBlankLines(SplitLines(fileContent));
  }

  /** The same facts for any lines that hold no line feed. */
  lemma NonBlankLines(lines: seq<string>)
    requires forall k :: 0 <= k < |lines| ==> '\n' !in lines[k]
    ensures forall d :: d in LinesWhere(lines, NonBlank) ==> d.text in lines && Trim(d.text) != [] && '\n' !in d.text
    ensures forall k :: 0 <= k < |lines| && Trim(lines[k]) != [] ==> Document(lines[k]) in LinesWhere(lines, NonBlank)
    ensures LinesWhere(lines, NonBlank) == [] <==> forall k :: 0 <= k < |lines| ==> Trim(lines[k]) == []
  {
    var documents := LinesWhere(lines, NonBlank);
    LinesWhereExact(lines, NonBlank);
    forall d | d in documents ensures '\n' !in d.text {
      var k :| 0 <= k < |lines| && lines[k] == d.text;
    }
    if documents != [] {
      var d := documents[0];
      assert d in documents;
      var k :| 0 <= k < |lines| && lines[k] == d.text;
    }
  }

  /** The outcome of `performSearch` on the text of the file, with `algorithm` defaulting to
      `tfidf_ultra` and `topN` to 5. */
  ghost function SearchOutcome(fileContent: string, query: string, algorithm: Option<string>, topN: Option<int>,
                               ln: real -> real, sqrt: real -> real): Result<SearchOutput, SearchError>
    requires SqrtLaws(sqrt)
  {
    var name := if algorithm.Some? then algorithm.value else "tfidf_ultra";
    var n := if topN.Some? then topN.value else 5;
    var documents := DocumentsOf(fileContent);
    if documents == [] then Err(NoDocuments)
    else
      match ParseAlgorithm(name)
      case None => Err(UnknownAlgorithm(name))
      case Some(a) => Ok(AlgorithmSearch(a, documents, query, n, ln, sqrt))
  }

  /** The search the chosen algorithm performs. */
  ghost function AlgorithmSearch(a: Algorithm, documents: seq<Document>, query: string, topN: int,
                                 ln: real -> real, sqrt: real -> real): SearchOutput
    requires SqrtLaws(sqrt)
  {
    match a
    case Simple => SimpleSearch(documents, query, topN)
    case Jaccard => JaccardSearch(documents, query, topN)
    case _ => TfidfSearch(documents, query, topN, ProfileTokenizer(a), ProfileName(a), ProfileOptions(a), ln, sqrt)
  }

  /** The cases of the `switch` that run a search. */
  method RunAlgorithm(a: Algorithm, documents: seq<Document>, query: string, topN: int,
                      ln: real -> real, sqrt: real -> real) returns (searchResult: SearchOutput)
    requires SqrtLaws(sqrt)
    ensures searchResult == AlgorithmSearch(a, documents, query, topN, ln, sqrt)
  {
    match a
    case Simple =>
      searchResult := PerformSimpleSearch(documents, query, topN);
    case Jaccard =>
      searchResult := SearchJaccard(documents, query, topN);
    case _ =>
      searchResult := SearchTfidf(documents, query, topN, ProfileTokenizer(a), ProfileName(a), ProfileOptions(a), ln, sqrt);
  }

  /** `performSearch(filePath, query, algorithm, topN)` once the file has been read. */
  method PerformSearch(fileContent: string, query: string, algorithm: Option<string>, topN: Option<int>,
                       ln: real -> real, sqrt: real -> real)
    returns (outcome: Result<SearchOutput, SearchError>)
    requires SqrtLaws(sqrt)
    ensures outcome == SearchOutcome(fileContent, query, algorithm, topN, ln, sqrt)
  {
    var name := if algorithm.Some? then algorithm.value else "tfidf_ultra";
    var n := if topN.Some? then topN.value else 5;
    var documents := DocumentsOf(fileContent);
    if |documents| == 0 {
      return Err(NoDocuments);
    }
    match ParseAlgorithm(name)
    case None =>
      return Err(UnknownAlgorithm(name));
    case Some(a) =>
      var searchResult := RunAlgorithm(a, documents, query, n, ln, sqrt);
      return Ok(searchResult);
  }

  /** The file holding no non-blank line is reported before the algorithm name is checked;
      a search runs exactly when there are documents and the name is known, and then returns
      at most `topN` results (5 by default), ranked, each a document of the file. */
  lemma SearchOutcomeProperties(fileContent: string, query: string, algorithm: Option<string>, topN: Option<int>,
                                ln: real -> real, sqrt: real -> real)
    requires SqrtLaws(sqrt)
    ensures var name := if algorithm.Some? then algorithm.value else "tfidf_ultra";
      && (SearchOutcome(fileContent, query, algorithm, topN, ln, sqrt) == Err(NoDocuments) <==>
          DocumentsOf(fileContent) == [])
      && (SearchOutcome(fileContent, query, algorithm, topN, ln, sqrt) == Err(UnknownAlgorithm(name)) <==>
          DocumentsOf(fileContent) != [] && ParseAlgorithm(name) == None)
      && (SearchOutcome(fileContent, query, algorithm, topN, ln, sqrt).Ok? <==>
          DocumentsOf(fileContent) != [] && ParseAlgorithm(name) != None)
    ensures var n := if topN.Some? then topN.value else 5;
      SearchOutcome(fileContent, query, algorithm, topN, ln, sqrt).Ok? ==>
      var results := SearchOutcome(fileContent, query, algorithm, topN, ln, sqrt).value.results;
      && Ranked(results)
      && (n >= 0 ==> |results| <= n)
      && forall x :: x in results ==> x.index >= 1 && x.text in SplitLines(fileContent)
  {
    var name := if algorithm.Some? then algorithm.value else "tfidf_ultra";
    var n := if topN.Some? then topN.value else 5;
    var documents := DocumentsOf(fileContent);
    var outcome := SearchOutcome(fileContent, query, algorithm, topN, ln, sqrt);
    var parsed := ParseAlgorithm(name);
    if documents == [] {
      assert outcome == Err(NoDocuments);
    } else if parsed == None {
      assert outcome == Err(UnknownAlgorithm(name));
    } else {
      assert outcome == Ok(AlgorithmSearch(parsed.value, documents, query, n, ln, sqrt));
      AlgorithmSearchRanked(fileContent, parsed.value, documents, query, n, ln, sqrt);
    }
  }

  /** Whichever algorithm runs, its results are ranked, at most `topN` when it is not
      negative, and each is a line of the file. */
  lemma AlgorithmSearchRanked(fileContent: string, a: Algorithm, documents: seq<Document>, query: string, topN: int,
                              ln: real -> real, sqrt: real -> real)
    requires SqrtLaws(sqrt) && documents == DocumentsOf(fileContent)
    ensures var results := AlgorithmSearch(a, documents, query, topN, ln, sqrt).results;
      && Ranked(results)
      && (topN >= 0 ==> |results| <= topN)
      && forall x :: x in results ==> x.index >= 1 && x.text in SplitLines(fileContent)
  {
    match a
    case Simple =>
      RankOutcome(fileContent, documents, SimpleScores(documents, query), 0.0, topN);
    case Jaccard =>
      RankOutcome(fileContent, documents, JaccardScores(BasicTokens(query), BasicTokensOf(documents)), 0.0, topN);
    case _ =>
      RankOutcome(fileContent, documents,
                  TfidfScores(documents, query, ProfileTokenizer(a), ProfileOptions(a), ln, sqrt), TfidfThreshold, topN);
  }

  /** The ranked results over the documents of a file are ranked, at most `topN` when it is
      not negative, and each is a line of the file. */
  lemma RankOutcome(fileContent: string, documents: seq<Document>, scores: seq<real>, threshold: real, topN: int)
    requires documents == DocumentsOf(fileContent) && |scores| == |documents|
    ensures Ranked(Rank(documents, scores, threshold, topN))
    ensures topN >= 0 ==> |Rank(documents, scores, threshold, topN)| <= topN
    ensures forall x :: x in Rank(documents, scores, threshold, topN) ==>
      x.index >= 1 && x.text in SplitLines(fileContent)
  {
    RankShape(documents, scores, threshold, topN);
    RankLength(documents, scores, threshold, topN);
    DocumentsOfProperties(fileContent);
    forall x | x in Rank(documents, scores, threshold, topN) ensures x.text in SplitLines(fileContent) {
      assert IsHit(x, documents, scores, threshold);
      assert documents[x.index - 1] in documents;
    }
  }
}
