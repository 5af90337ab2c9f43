/** `computeTFIDFAdvanced` of src/app.js: every document and the query are tokenised, term
    weights are counted per text, document frequencies over all texts give an inverse
    document frequency per vocabulary token, and each text becomes a sparse vector holding its
    positive TF-IDF weights, scaled to unit length when L2 normalisation is on.

    `Math.log` and `Math.sqrt` enter as parameters; the proofs use only the laws stated by
    `LnLaws` and `SqrtLaws`. */
module TfidfVectors {
  import opened Wrappers
  import opened Seqs
  import opened SearchTokens
  import opened SparseVectors
  import opened RealArith

  /** The facts about the natural logarithm that the proofs rely on. */
  ghost predicate LnLaws(ln: real -> real) {
    ln(1.0) == 0.0 && forall x, y :: 0.0 < x < y ==> ln(x) < ln(y)
  }

  /** The square root of a positive number is positive. */
  ghost predicate SqrtLaws(sqrt: real -> real) {
    forall x :: x > 0.0 ==> sqrt(x) > 0.0
  }

  /** The tokenizer function handed to the vectoriser, as the source passes one: it receives
      each text and the options. */
  type TokenizerFunction = (string, Options) -> seq<string>

  /** Both switches default to on: only an explicit `false` turns them off. */
  function UseL2Norm(o: Options): bool { o.useL2Norm != Some(false) }

  function UseImprovedIdf(o: Options): bool { o.useImprovedIDF != Some(false) }

  /** The token lists of the documents followed by the query. */
  function AllTokens(texts: seq<string>, tokenize: TokenizerFunction, o: Options): (r: seq<seq<string>>)
    ensures |r| == |texts|
    ensures forall i :: 0 <= i < |texts| ==> r[i] == tokenize(texts[i], o)
  {
    seq(|texts|, i requires 0 <= i < |texts| => tokenize(texts[i], o))
  }

  /** How often `t` occurs in `tokens`. */
  function Count(tokens: seq<string>, t: string): nat { multiset(tokens)[t] }

  /** Raw term counts: one entry per distinct token. */
  function TermCounts(tokens: seq<string>): Vector
  {
    map t | t in tokens :: Count(tokens, t) as real
  }

  /** The weight of a token seen `count` times among `total` tokens: `log(1 + count)` with the
      improved IDF, the relative frequency otherwise. */
  function TfWeight(count: real, total: nat, improved: bool, ln: real -> real): real
    requires total > 0
  {
    if improved then ln(1.0 + count) else count / total as real
  }

  /** The term-frequency table of one text. */
  function TermWeights(tokens: seq<string>, improved: bool, ln: real -> real): (r: Vector)
    ensures r.Keys == set t | t in tokens
  {
    map t | t in tokens :: TfWeight(Count(tokens, t) as real, |tokens|, improved, ln)
  }

  /** In how many of the texts `t` occurs. */
  function DocFreq(allTokens: seq<seq<string>>, t: string): nat
  {
    if allTokens == [] then 0
    else DocFreq(allTokens[..|allTokens| - 1], t) + (if t in allTokens[|allTokens| - 1] then 1 else 0)
  }

  /** The document-frequency table: one entry per token that occurs in some text. */
  function DfTable(allTokens: seq<seq<string>>): map<string, nat>
  {
    map t | t in Flatten(allTokens) :: DocFreq(allTokens, t)
  }

  /** `documentFrequency.get(token) || 1`. */
  function DfOrOne(df: map<string, nat>, t: string): (d: nat)
    ensures d >= 1
    ensures t in df && df[t] >= 1 ==> d == df[t]
  {
    if t in df && df[t] != 0 then df[t] else 1
  }

  /** The inverse document frequency of a token found in `df` of `n` texts: the smoothed
      `log((n + 1) / (df + 1)) + 1` or the standard `log(n / df)`. */
  function IdfValue(n: nat, df: nat, improved: bool, ln: real -> real): real
    requires df >= 1
  {
    if improved then ln((n + 1) as real / (df + 1) as real) + 1.0 else ln(n as real / df as real)
  }

  function IdfTable(vocabulary: seq<string>, df: map<string, nat>, n: nat, improved: bool, ln: real -> real): (r: Vector)
    ensures r.Keys == set t | t in vocabulary
  {
    map t | t in vocabulary :: IdfValue(n, DfOrOne(df, t), improved, ln)
  }

  /** The TF-IDF weights of the keys in `keys`, kept only where the term frequency and the
      product are positive and the token has an IDF. */
  function RawOver(keys: set<string>, tf: Vector, idf: Vector): Vector
    requires keys <= tf.Keys
  {
    map t | t in keys && tf[t] > 0.0 && t in idf && tf[t] * idf[t] > 0.0 :: tf[t] * idf[t]
  }

  function RawVector(tf: Vector, idf: Vector): Vector
  {
    RawOver(tf.Keys, tf, idf)
  }

  /** The squared length of a vector. */
  ghost function SumSquares(v: Vector): real
  {
    DotOver(v.Keys, v, v)
  }

  /** Division by the length when normalisation is on and the vector is not zero. */
  ghost function Normalized(raw: Vector, useL2: bool, sqrt: real -> real): Vector
    requires SqrtLaws(sqrt)
  {
    var m := SumSquares(raw);
    if useL2 && m > 0.0 then map t | t in raw :: raw[t] / sqrt(m) else raw
  }

  /** The vectors of all texts, in order. */
  ghost function VectorsOf(allTokens: seq<seq<string>>, o: Options, ln: real -> real, sqrt: real -> real): (r: seq<Vector>)
    requires SqrtLaws(sqrt)
    ensures |r| == |allTokens|
  {
    var improved := UseImprovedIdf(o);
    var idf := IdfTable(Dedup(Flatten(allTokens)), DfTable(allTokens), |allTokens|, improved, ln);
    seq(|allTokens|, i requires 0 <= i < |allTokens| =>
      Normalized(RawVector(TermWeights(allTokens[i], improved, ln), idf), UseL2Norm(o), sqrt))
  }

  /** What the vectoriser returns (timing and the sparseness flag are not modelled). */
  datatype TfidfData = TfidfData(
    vectors: seq<Vector>,
    vocabulary: seq<string>,
    vocabSize: nat,
    queryVector: Vector,
    docVectors: seq<Vector>)

  // ----- the imperative vectoriser -----

  /** `allTexts.map(text => tokenizerFunction(text, options))`. */
  method TokenizeAll(texts: seq<string>, tokenize: TokenizerFunction, o: Options) returns (allTokens: seq<seq<string>>)
    ensures allTokens == AllTokens(texts, tokenize, o)
  {
    allTokens := [];
    var i := 0;
    while i < |texts|
      invariant 0 <= i <= |texts|
      invariant |allTokens| == i
      invariant forall k :: 0 <= k < i ==> allTokens[k] == tokenize(texts[k], o)
    {
      allTokens := allTokens + [tokenize(texts[i], o)];
      i := i + 1;
    }
  }

  lemma TermCountsSnoc(s: seq<string>, x: string)
    ensures TermCounts(s + [x]) == TermCounts(s)[x := (if x in TermCounts(s) then TermCounts(s)[x] else 0.0) + 1.0]
  {
    var a, b := TermCounts(s + [x]), TermCounts(s)[x := (if x in TermCounts(s) then TermCounts(s)[x] else 0.0) + 1.0];
    assert multiset(s + [x]) == multiset(s) + multiset{x};
    forall t ensures t in a <==> t in b { assert t in s + [x] <==> t in s || t == x; }
    forall t | t in a ensures a[t] == b[t] {
      if t != x { assert t in s; }
    }
  }

  /** Counting loop, then the weighting loop over the distinct tokens. */
  method CountTerms(tokens: seq<string>, improved: bool, ln: real -> real) returns (tf: Vector)
    ensures tf == TermWeights(tokens, improved, ln)
  {
    tf := map[];
    var j := 0;
    while j < |tokens|
      invariant 0 <= j <= |tokens|
      invariant tf == TermCounts(tokens[..j])
    {
      var token := tokens[j];
      assert tokens[..j + 1] == tokens[..j] + [token];
      TermCountsSnoc(tokens[..j], token);
      tf := tf[token := (if token in tf then tf[token] else 0.0) + 1.0];
      j := j + 1;
    }
    assert tokens[..|tokens|] == tokens;
    var totalTokens := |tokens|;
    ghost var counts := tf;
    var keys := tf.Keys;
    while keys != {}
      invariant keys <= counts.Keys == tf.Keys
      invariant counts == TermCounts(tokens)
      invariant forall t :: t in counts && t !in keys ==> tf[t] == TfWeight(counts[t], totalTokens, improved, ln)
      invariant forall t :: t in keys ==> tf[t] == counts[t]
      decreases |keys|
    {
      var token :| token in keys;
      assert token in tokens;
      tf := tf[token := if improved then ln(1.0 + tf[token]) else tf[token] / totalTokens as real];
      keys := keys - {token};
    }
  }

  lemma DocFreqAbsent(allTokens: seq<seq<string>>, t: string)
    requires t !in Flatten(allTokens)
    ensures DocFreq(allTokens, t) == 0
  {
    if allTokens != [] {
      DocFreqAbsent(allTokens[..|allTokens| - 1], t);
    }
  }

  lemma DfTableSnoc(ts: seq<seq<string>>, last: seq<string>, t: string)
    ensures t in DfTable(ts + [last]) <==> t in DfTable(ts) || t in last
    ensures t in DfTable(ts + [last]) ==>
      DfTable(ts + [last])[t] == (if t in DfTable(ts) then DfTable(ts)[t] else 0) + (if t in last then 1 else 0)
  {
    assert (ts + [last])[..|ts|] == ts;
    assert Flatten(ts + [last]) == Flatten(ts) + last;
    if t !in Flatten(ts) { DocFreqAbsent(ts, t); }
  }

  /** One pass per text over the set of its distinct tokens. */
  method DocumentFrequencies(allTokens: seq<seq<string>>) returns (df: map<string, nat>)
    ensures df == DfTable(allTokens)
  {
    df := map[];
    var i := 0;
    while i < |allTokens|
      invariant 0 <= i <= |allTokens|
      invariant df == DfTable(allTokens[..i])
    {
      df := CountOnce(df, allTokens[i]);
      assert allTokens[..i + 1] == allTokens[..i] + [allTokens[i]];
      forall t ensures t in df <==> t in DfTable(allTokens[..i + 1]) {
        DfTableSnoc(allTokens[..i], allTokens[i], t);
      }
      forall t | t in df ensures df[t] == DfTable(allTokens[..i + 1])[t] {
        DfTableSnoc(allTokens[..i], allTokens[i], t);
      }
      i := i + 1;
    }
    assert allTokens[..|allTokens|] == allTokens;
  }

  /** Adds one to the frequency of every distinct token of `tokens`. */
  method CountOnce(before: map<string, nat>, tokens: seq<string>) returns (df: map<string, nat>)
    ensures forall t :: t in df <==> t in before || t in tokens
    ensures forall t :: t in df ==> df[t] == (if t in before then before[t] else 0) + (if t in tokens then 1 else 0)
  {
    df := before;
    var uniqueTokens := set t | t in tokens;
    var remaining := uniqueTokens;
    while remaining != {}
      invariant remaining <= uniqueTokens
      invariant forall t :: t in df <==> t in before || (t in uniqueTokens && t !in remaining)
      invariant forall t :: t in df ==>
        df[t] == (if t in before then before[t] else 0) + (if t in uniqueTokens && t !in remaining then 1 else 0)
      decreases |remaining|
    {
      var token :| token in remaining;
      df := df[token := (if token in df then df[token] else 0) + 1];
      remaining := remaining - {token};
    }
  }

  /** One IDF value per vocabulary token. */
  method IdfValues(vocabulary: seq<string>, df: map<string, nat>, docCount: nat, improved: bool, ln: real -> real)
    returns (idf: Vector)
    ensures idf == IdfTable(vocabulary, df, docCount, improved, ln)
  {
    idf := map[];
    var i := 0;
    while i < |vocabulary|
      invariant 0 <= i <= |vocabulary|
      invariant idf == IdfTable(vocabulary[..i], df, docCount, improved, ln)
    {
      var token := vocabulary[i];
      var d := if token in df && df[token] != 0 then df[token] else 1;
      if improved {
        idf := idf[token := ln((docCount + 1) as real / (d + 1) as real) + 1.0];
      } else {
        idf := idf[token := ln(docCount as real / d as real)];
      }
      assert idf[token] == IdfValue(docCount, DfOrOne(df, token), improved, ln);
      assert vocabulary[..i + 1] == vocabulary[..i] + [token];
      IdfTableSnoc(vocabulary[..i], token, df, docCount, improved, ln);
      i := i + 1;
    }
    assert vocabulary[..|vocabulary|] == vocabulary;
  }

  /** One more vocabulary token adds its own entry to the IDF table. */
  lemma IdfTableSnoc(vocabulary: seq<string>, token: string, df: map<string, nat>, n: nat, improved: bool,
                     ln: real -> real)
    ensures IdfTable(vocabulary + [token], df, n, improved, ln) ==
      IdfTable(vocabulary, df, n, improved, ln)[token := IdfValue(n, DfOrOne(df, token), improved, ln)]
  {
    var a := IdfTable(vocabulary + [token], df, n, improved, ln);
    var b := IdfTable(vocabulary, df, n, improved, ln)[token := IdfValue(n, DfOrOne(df, token), improved, ln)];
    assert a.Keys == b.Keys;
    forall t | t in a ensures a[t] == b[t] {
    }
  }

  /** The sparse vector of one text: positive weights only, then the L2 scaling. */
  method SparseVector(tf: Vector, idf: Vector, useL2Norm: bool, sqrt: real -> real) returns (v: Vector)
    requires SqrtLaws(sqrt)
    ensures v == Normalized(RawVector(tf, idf), useL2Norm, sqrt)
  {
    var magnitude;
    v, magnitude := PositiveWeights(tf, idf);
    if useL2Norm && magnitude > 0.0 {
      magnitude := sqrt(magnitude);
      v := Scale(v, magnitude);
    }
  }

  /** Taking one more key into account adds its weight when that weight is kept. */
  lemma RawOverAdd(keys: set<string>, tf: Vector, idf: Vector, t: string)
    requires keys <= tf.Keys && t in tf && t !in keys
    ensures RawOver(keys + {t}, tf, idf) == AddPositive(RawOver(keys, tf, idf), tf, idf, t)
  {
    var a := RawOver(keys + {t}, tf, idf);
    var b := AddPositive(RawOver(keys, tf, idf), tf, idf, t);
    forall k ensures k in a <==> k in b {}
    forall k | k in a ensures a[k] == b[k] {}
  }

  /** `v` with the weight of `t` added when it is positive. */
  function AddPositive(v: Vector, tf: Vector, idf: Vector, t: string): Vector
    requires t in tf
  {
    if tf[t] > 0.0 && t in idf && tf[t] * idf[t] > 0.0 then v[t := tf[t] * idf[t]] else v
  }

  /** Adding a new key adds its square to the squared length. */
  lemma SumSquaresAdd(v: Vector, t: string, x: real)
    requires t !in v
    ensures SumSquares(v[t := x]) == SumSquares(v) + x * x
  {
    var w := v[t := x];
    DotOverSplit(w.Keys, w, w, t);
    assert w.Keys - {t} == v.Keys;
    DotOverAgree(v.Keys, w, w, v, v);
  }

  /** The weights `tf * idf` that are positive, and the sum of their squares. */
  method PositiveWeights(tf: Vector, idf: Vector) returns (v: Vector, magnitude: real)
    ensures v == RawVector(tf, idf)
    ensures magnitude == SumSquares(v)
  {
    v := map[];
    magnitude := 0.0;
    var keys := tf.Keys;
    ghost var done: set<string> := {};
    while keys != {}
      invariant done !! keys && done + keys == tf.Keys
      invariant v == RawOver(done, tf, idf)
      invariant magnitude == SumSquares(v)
      decreases |keys|
    {
      var token :| token in keys;
      RawOverAdd(done, tf, idf, token);
      v, magnitude := AddWeight(v, magnitude, tf, idf, token);
      done := done + {token};
      keys := keys - {token};
    }
  }

  /** One step of the loop over a text's tokens: a positive weight is stored and its square
      added to the running sum. */
  method AddWeight(v: Vector, magnitude: real, tf: Vector, idf: Vector, token: string)
    returns (v': Vector, magnitude': real)
    requires token in tf && token !in v
    ensures v' == AddPositive(v, tf, idf, token)
    ensures magnitude == SumSquares(v) ==> magnitude' == SumSquares(v')
  {
    v', magnitude' := v, magnitude;
    if tf[token] > 0.0 && token in idf {
      var tfidfValue := tf[token] * idf[token];
      if tfidfValue > 0.0 {
        SumSquaresAdd(v, token, tfidfValue);
        v' := v[token := tfidfValue];
        magnitude' := magnitude + tfidfValue * tfidfValue;
      }
    }
  }

  /** Divides every weight by `m`. */
  method Scale(raw: Vector, m: real) returns (v: Vector)
    requires m != 0.0
    ensures v == map t | t in raw :: raw[t] / m
  {
    v := raw;
    var keys := raw.Keys;
    while keys != {}
      invariant keys <= raw.Keys == v.Keys
      invariant forall t :: t in raw && t !in keys ==> v[t] == raw[t] / m
      invariant forall t :: t in keys ==> v[t] == raw[t]
      decreases |keys|
    {
      var token :| token in keys;
      v := v[token := v[token] / m];
      keys := keys - {token};
    }
  }

  /** `computeTFIDFAdvanced(documents, query, tokenizerFunction, options)`: the vocabulary is
      every distinct token in order of first occurrence, there is one vector per text, the last
      one is the query's and the others are the documents', in order. */
  method ComputeTfidf(documents: seq<string>, query: string, tokenizerFunction: TokenizerFunction, options: Options,
                      ln: real -> real, sqrt: real -> real) returns (data: TfidfData)
    requires SqrtLaws(sqrt)
    ensures var allTokens := AllTokens(documents + [query], tokenizerFunction, options);
      && data.vocabulary == Dedup(Flatten(allTokens))
      && data.vectors == VectorsOf(allTokens, options, ln, sqrt)
    ensures data.vocabSize == |data.vocabulary|
    ensures |data.vectors| == |documents| + 1
    ensures data.queryVector == data.vectors[|documents|]
    ensures data.docVectors == data.vectors[..|documents|]
  {
    var useL2Norm := options.useL2Norm != Some(false);
    var useImprovedIdf := options.useImprovedIDF != Some(false);
    var allTexts := documents + [query];
    var allTokens := TokenizeAll(allTexts, tokenizerFunction, options);
    var vocabulary := Dedup(Flatten(allTokens));
    var vocabSize := |vocabulary|;
    var tfidfVectors := TermFrequencies(allTokens, useImprovedIdf, ln);
    var documentFrequency := DocumentFrequencies(allTokens);
    var idf := IdfValues(vocabulary, documentFrequency, |allTexts|, useImprovedIdf, ln);
    var vectors := SparseVectorsOf(tfidfVectors, idf, useL2Norm, sqrt);
    VectorsOfAre(allTokens, options, ln, sqrt, vectors);
    data := TfidfData(vectors, vocabulary, vocabSize, vectors[|vectors| - 1], JsSlice(vectors, 0, -1));
  }

  /** The term-frequency table of every text. */
  method TermFrequencies(allTokens: seq<seq<string>>, improved: bool, ln: real -> real) returns (tfs: seq<Vector>)
    ensures |tfs| == |allTokens|
    ensures forall k :: 0 <= k < |allTokens| ==> tfs[k] == TermWeights(allTokens[k], improved, ln)
  {
    tfs := [];
    var i := 0;
    while i < |allTokens|
      invariant 0 <= i <= |allTokens|
      invariant |tfs| == i
      invariant forall k :: 0 <= k < i ==> tfs[k] == TermWeights(allTokens[k], improved, ln)
    {
      var tf := CountTerms(allTokens[i], improved, ln);
      tfs := tfs + [tf];
      i := i + 1;
    }
  }

  /** The sparse vector of every text. */
  method SparseVectorsOf(tfs: seq<Vector>, idf: Vector, useL2Norm: bool, sqrt: real -> real) returns (vectors: seq<Vector>)
    requires SqrtLaws(sqrt)
    ensures |vectors| == |tfs|
    ensures forall k :: 0 <= k < |tfs| ==> vectors[k] == Normalized(RawVector(tfs[k], idf), useL2Norm, sqrt)
  {
    vectors := [];
    var i := 0;
    while i < |tfs|
      invariant 0 <= i <= |tfs|
      invariant |vectors| == i
      invariant forall k :: 0 <= k < i ==> vectors[k] == Normalized(RawVector(tfs[k], idf), useL2Norm, sqrt)
    {
      var v := SparseVector(tfs[i], idf, useL2Norm, sqrt);
      vectors := vectors + [v];
      i := i + 1;
    }
  }

  lemma VectorsOfAre(allTokens: seq<seq<string>>, o: Options, ln: real -> real, sqrt: real -> real, vectors: seq<Vector>)
    requires SqrtLaws(sqrt)
    requires |vectors| == |allTokens|
    requires forall k :: 0 <= k < |allTokens| ==> vectors[k] == Normalized(RawVector(TermWeights(allTokens[k], UseImprovedIdf(o), ln),
      IdfTable(Dedup(Flatten(allTokens)), DfTable(allTokens), |allTokens|, UseImprovedIdf(o), ln)), UseL2Norm(o), sqrt)
    ensures vectors == VectorsOf(allTokens, o, ln, sqrt)
  {
  }

  // ----- properties of the vectoriser -----

  /** The vocabulary holds every token of every text exactly once. */
  lemma VocabularyShape(allTokens: seq<seq<string>>)
    ensures NoDuplicates(Dedup(Flatten(allTokens)))
    ensures forall t :: t in Dedup(Flatten(allTokens)) <==> exists i :: 0 <= i < |allTokens| && t in allTokens[i]
  {
    DedupProperties(Flatten(allTokens));
    forall t ensures t in Flatten(allTokens) <==> exists i :: 0 <= i < |allTokens| && t in allTokens[i] {
      FlattenMembers(allTokens, t);
    }
  }

  /** A token occurs in at most all texts, and in at least one when some text contains it. */
  lemma {:induction false} DocFreqBounds(allTokens: seq<seq<string>>, t: string)
    ensures DocFreq(allTokens, t) <= |allTokens|
    ensures (exists i :: 0 <= i < |allTokens| && t in allTokens[i]) <==> DocFreq(allTokens, t) >= 1
    ensures (forall i :: 0 <= i < |allTokens| ==> t in allTokens[i]) <==> DocFreq(allTokens, t) == |allTokens|
  {
    if allTokens != [] {
      var n := |allTokens| - 1;
      var init := allTokens[..n];
      DocFreqBounds(init, t);
      if exists i :: 0 <= i < |allTokens| && t in allTokens[i] {
        if t !in allTokens[n] {
          var i :| 0 <= i < |allTokens| && t in allTokens[i];
          assert t in init[i];
        }
      }
      if DocFreq(allTokens, t) == |allTokens| {
        forall i | 0 <= i < |allTokens| ensures t in allTokens[i] {
          if i < n { assert init[i] == allTokens[i]; }
        }
      }
      if forall i :: 0 <= i < |allTokens| ==> t in allTokens[i] {
        forall i | 0 <= i < |init| ensures t in init[i] { assert init[i] == allTokens[i]; }
      }
    }
  }

  /** Every token of the document-frequency table occurs in at least one and at most all of
      the texts. */
  lemma DfTableBounds(allTokens: seq<seq<string>>)
    ensures forall t :: t in DfTable(allTokens) ==> 1 <= DfTable(allTokens)[t] <= |allTokens|
  {
    forall t | t in DfTable(allTokens) ensures 1 <= DocFreq(allTokens, t) <= |allTokens| {
      FlattenMembers(allTokens, t);
      DocFreqBounds(allTokens, t);
    }
  }

  /** For every vocabulary token the document frequency is found, between 1 and the number
      of texts, so the `|| 1` fallback is never taken. */
  lemma DfOfVocabulary(allTokens: seq<seq<string>>, t: string)
    requires t in Dedup(Flatten(allTokens))
    ensures t in DfTable(allTokens)
    ensures DfOrOne(DfTable(allTokens), t) == DfTable(allTokens)[t] == DocFreq(allTokens, t)
    ensures 1 <= DocFreq(allTokens, t) <= |allTokens|
  {
    VocabularyShape(allTokens);
    DedupMember(Flatten(allTokens), t);
    DocFreqBounds(allTokens, t);
  }

  /** Every vector has weights only for tokens of its own text, and all of them positive. */
  lemma VectorsPositive(allTokens: seq<seq<string>>, o: Options, ln: real -> real, sqrt: real -> real, i: nat)
    requires SqrtLaws(sqrt) && i < |allTokens|
    ensures VectorsOf(allTokens, o, ln, sqrt)[i].Keys <= set t | t in allTokens[i]
    ensures Positive(VectorsOf(allTokens, o, ln, sqrt)[i])
  {
    var idf := IdfTable(Dedup(Flatten(allTokens)), DfTable(allTokens), |allTokens|, UseImprovedIdf(o), ln);
    var raw := RawVector(TermWeights(allTokens[i], UseImprovedIdf(o), ln), idf);
    NormalizedKeeps(raw, UseL2Norm(o), sqrt);
  }

  /** Normalisation keeps the keys, and keeps positive weights positive. */
  lemma NormalizedKeeps(raw: Vector, useL2: bool, sqrt: real -> real)
    requires SqrtLaws(sqrt)
    ensures Normalized(raw, useL2, sqrt).Keys == raw.Keys
    ensures Positive(raw) ==> Positive(Normalized(raw, useL2, sqrt))
  {
    var m := SumSquares(raw);
    if useL2 && m > 0.0 && Positive(raw) {
      var s := sqrt(m);
      assert s > 0.0;
      forall t | t in raw ensures raw[t] / s > 0.0 { PositiveQuotient(raw[t], s); }
    }
  }

  /** A monotone logarithm with `ln(1) = 0` is positive above 1 and not negative from 1 on. */
  lemma LnSign(ln: real -> real, x: real)
    requires LnLaws(ln)
    ensures x > 1.0 ==> ln(x) > 0.0
    ensures x >= 1.0 ==> ln(x) >= 0.0
  {
    if x > 1.0 { assert ln(1.0) < ln(x); }
  }

  /** The smoothed IDF of a token found in 1 to `n` of `n` texts is at least 1. */
  lemma ImprovedIdfValue(n: nat, d: nat, ln: real -> real)
    requires LnLaws(ln) && 1 <= d <= n
    ensures IdfValue(n, d, true, ln) >= 1.0
  {
    var q := (n + 1) as real / (d + 1) as real;
    QuotientAtLeastOne((n + 1) as real, (d + 1) as real);
    LnSign(ln, q);
  }

  /** With the smoothed IDF every vocabulary token gets an IDF of at least 1. */
  lemma ImprovedIdfAtLeastOne(allTokens: seq<seq<string>>, ln: real -> real, t: string)
    requires LnLaws(ln) && t in Dedup(Flatten(allTokens))
    ensures IdfTable(Dedup(Flatten(allTokens)), DfTable(allTokens), |allTokens|, true, ln)[t] >= 1.0
  {
    DfOfVocabulary(allTokens, t);
    ImprovedIdfValue(|allTokens|, DocFreq(allTokens, t), ln);
  }

  /** With the log-scaled term frequency every token of a text has a positive weight. */
  lemma LogTfPositive(tokens: seq<string>, ln: real -> real, t: string)
    requires LnLaws(ln) && t in tokens
    ensures TermWeights(tokens, true, ln)[t] > 0.0
  {
    assert Count(tokens, t) >= 1;
    LnSign(ln, 1.0 + Count(tokens, t) as real);
  }

  /** With the improved IDF (the default), a text's vector has a weight for exactly the
      distinct tokens of the text. */
  lemma ImprovedVectorKeys(allTokens: seq<seq<string>>, o: Options, ln: real -> real, sqrt: real -> real, i: nat)
    requires SqrtLaws(sqrt) && LnLaws(ln) && UseImprovedIdf(o) && i < |allTokens|
    ensures VectorsOf(allTokens, o, ln, sqrt)[i].Keys == set t | t in allTokens[i]
  {
    var vocabulary := Dedup(Flatten(allTokens));
    var idf := IdfTable(vocabulary, DfTable(allTokens), |allTokens|, true, ln);
    var tf := TermWeights(allTokens[i], true, ln);
    assert VectorsOf(allTokens, o, ln, sqrt)[i] == Normalized(RawVector(tf, idf), UseL2Norm(o), sqrt);
    VocabularyShape(allTokens);
    forall t | t in tf ensures tf[t] > 0.0 && t in idf && idf[t] > 0.0 {
      assert t in allTokens[i] && t in vocabulary;
      LogTfPositive(allTokens[i], ln, t);
      ImprovedIdfAtLeastOne(allTokens, ln, t);
    }
    RawKeepsAll(tf, idf);
    NormalizedKeeps(RawVector(tf, idf), UseL2Norm(o), sqrt);
  }

  /** When every term frequency and every IDF is positive, every token is kept. */
  lemma RawKeepsAll(tf: Vector, idf: Vector)
    requires forall t :: t in tf ==> tf[t] > 0.0 && t in idf && idf[t] > 0.0
    ensures RawVector(tf, idf).Keys == tf.Keys
  {
    forall t | t in tf ensures t in RawVector(tf, idf) {
      PositiveProduct(tf[t], idf[t]);
    }
  }

  /** With the standard IDF, a token found in every text has IDF `log(1) = 0` and so gets no
      weight in any vector. */
  lemma StandardIdfDropsUbiquitous(allTokens: seq<seq<string>>, o: Options, ln: real -> real, sqrt: real -> real, t: string)
    requires SqrtLaws(sqrt) && LnLaws(ln) && !UseImprovedIdf(o)
    requires forall i :: 0 <= i < |allTokens| ==> t in allTokens[i]
    ensures forall i :: 0 <= i < |allTokens| ==> t !in VectorsOf(allTokens, o, ln, sqrt)[i]
  {
    if allTokens != [] {
      var idf := IdfTable(Dedup(Flatten(allTokens)), DfTable(allTokens), |allTokens|, false, ln);
      UbiquitousIdf(allTokens, ln, t);
      forall i | 0 <= i < |allTokens| ensures t !in VectorsOf(allTokens, o, ln, sqrt)[i] {
        var tf := TermWeights(allTokens[i], false, ln);
        RawDropsZeroIdf(tf, idf, t);
        NormalizedKeeps(RawVector(tf, idf), UseL2Norm(o), sqrt);
      }
    }
  }

  /** Under the standard IDF, a token held by every text has IDF `ln(n / n) = 0`. */
  lemma UbiquitousIdf(allTokens: seq<seq<string>>, ln: real -> real, t: string)
    requires LnLaws(ln) && allTokens != []
    requires forall i :: 0 <= i < |allTokens| ==> t in allTokens[i]
    ensures t in IdfTable(Dedup(Flatten(allTokens)), DfTable(allTokens), |allTokens|, false, ln)
    ensures IdfTable(Dedup(Flatten(allTokens)), DfTable(allTokens), |allTokens|, false, ln)[t] == 0.0
  {
    var vocabulary := Dedup(Flatten(allTokens));
    var n := |allTokens|;
    assert t in allTokens[0];
    VocabularyShape(allTokens);
    assert t in vocabulary;
    DfOfVocabulary(allTokens, t);
    DocFreqBounds(allTokens, t);
    var d := DfOrOne(DfTable(allTokens), t);
    assert d == n;
    assert IdfTable(vocabulary, DfTable(allTokens), n, false, ln)[t] == IdfValue(n, d, false, ln);
    QuotientOne(n as real, n as real);
  }

  /** A token whose IDF is 0 gets no weight. */
  lemma RawDropsZeroIdf(tf: Vector, idf: Vector, t: string)
    requires t in idf && idf[t] == 0.0
    ensures t !in RawVector(tf, idf)
  {
    if t in tf {
      assert tf[t] * idf[t] == 0.0;
    }
  }

  /** The inner product of two texts' vectors is 0 when the texts share no token. */
  lemma DotOfDisjoint(allTokens: seq<seq<string>>, o: Options, ln: real -> real, sqrt: real -> real, i: nat, j: nat)
    requires SqrtLaws(sqrt) && i < |allTokens| && j < |allTokens|
    requires (set t | t in allTokens[i]) !! (set t | t in allTokens[j])
    ensures Dot(VectorsOf(allTokens, o, ln, sqrt)[j], VectorsOf(allTokens, o, ln, sqrt)[i]) == 0.0
  {
    var vs := VectorsOf(allTokens, o, ln, sqrt);
    VectorsPositive(allTokens, o, ln, sqrt, i);
    VectorsPositive(allTokens, o, ln, sqrt, j);
    assert vs[j].Keys !! vs[i].Keys;
    DotProperties(vs[j], vs[i]);
  }

  /** With the smoothed IDF the inner product of two texts' vectors is positive exactly when
      the texts share a token. */
  lemma DotOfImproved(allTokens: seq<seq<string>>, o: Options, ln: real -> real, sqrt: real -> real, i: nat, j: nat)
    requires SqrtLaws(sqrt) && LnLaws(ln) && UseImprovedIdf(o) && i < |allTokens| && j < |allTokens|
    ensures Dot(VectorsOf(allTokens, o, ln, sqrt)[j], VectorsOf(allTokens, o, ln, sqrt)[i]) > 0.0 <==>
      !((set t | t in allTokens[i]) !! (set t | t in allTokens[j]))
  {
    var vs := VectorsOf(allTokens, o, ln, sqrt);
    var a, b := vs[j], vs[i];
    VectorsPositive(allTokens, o, ln, sqrt, i);
    VectorsPositive(allTokens, o, ln, sqrt, j);
    ImprovedVectorKeys(allTokens, o, ln, sqrt, i);
    ImprovedVectorKeys(allTokens, o, ln, sqrt, j);
    KeysShared(a, b, set t | t in allTokens[j], set t | t in allTokens[i]);
  }

  /** Positive vectors with the given key sets have a positive inner product exactly when
      the key sets meet. */
  lemma KeysShared(a: Vector, b: Vector, keysA: set<string>, keysB: set<string>)
    requires Positive(a) && Positive(b) && a.Keys == keysA && b.Keys == keysB
    ensures Dot(a, b) > 0.0 <==> !(keysB !! keysA)
  {
    DotPositive(a, b);
    if !(keysB !! keysA) {
      var x :| x in keysB && x in keysA;
      assert x in a.Keys * b.Keys;
    }
  }
}
