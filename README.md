# Lexical search over text lines, modelled in Dafny

This project models the lexical search engine of a small JavaScript retrieval tool. A text
file is read as one document per non-blank line. A query is then answered by one of five
algorithms:

- a substring search (`simple`);
- a Jaccard search over "basic" tokens (`jaccard`);
- a TF-IDF cosine search under three profiles (`tfidf_basic`, `tfidf_advanced`, `tfidf_ultra`).

Every search scores every document, keeps the documents scoring above a threshold, sorts them
by descending score and keeps the first `topN`. The model covers:

- the cleaner and the two script-aware tokenizers (English words, digit runs, katakana words,
  kanji runs, and character n-grams over the Japanese residual);
- the sparse TF-IDF vectoriser, the inner-product cosine, the Jaccard coefficient and the
  substring score;
- the ranker and the dispatcher that reads the file's lines and picks an algorithm;
- the smaller library classes: the word tokenizer `TextTokenizer`, the cleaner
  `preprocessText`, the stateful `TfidfCalculator` and the document list `DocumentProcessor`.

Modules, one per file:

- `Text` (text.dfy): characters, whitespace, ASCII lower-casing, `trim`, `split(/\s+/)`,
  `split('\n')`.
- `Seqs` (seqs.dfy): `slice`, `flat`, `[...new Set(xs)]`.
- `Scripts` (scripts.dfy): the Unicode ranges and the stopword sets.
- `SearchTokens` (search_tokens.dfy): the tokenizers of the search pipeline.
- `SparseVectors` (sparse.dfy): sparse vectors and their inner product.
- `TfidfVectors` (tfidf_vectors.dfy): `computeTFIDFAdvanced`.
- `Similarity` (similarity.dfy): the three pair scores.
- `Ranking` (ranking.dfy): filter, sort and truncate.
- `Search` (search.dfy): the three searches and the dispatcher.
- `TextPreprocessor`, `TextTokenizing`, `TfidfCalculation` and `DocumentProcessing`: the four
  library files.
- `RealArith` (real_arith.dfy) and `Wrappers` (wrappers.dfy): helpers.

How the model is built:

- Pure code is functions.
- Loops are methods, each proved equal to the function that specifies it.
- The two classes the source mutates (`TfidfCalculator`, `DocumentProcessor`) are Dafny classes
  whose methods state their whole new state.
- `Math.log` and `Math.sqrt` are parameters (`ln`, `sqrt`). The laws the proofs use are stated
  as the predicates `LnLaws` (`ln(1) = 0`, strictly increasing on positive numbers) and
  `SqrtLaws` (positive on positive numbers).
- Weights are exact reals.

Two places where the code and the surrounding documentation disagree:

- For an input with no word character, `TextTokenizer.tokenize` returns the single token `""`
  (splitting the empty string gives `[""]`). The model follows the code
  (`TextTokenizing.TextTokenizer.TokenizeNoWords`).
- The unit tests of `TfidfCalculator` call a constructor without documents and a `calculate`
  method the class does not have. The model follows the class.

## Model

| member | source | states |
|---|---|---|
| TextPreprocessor.PreprocessText | src/utils/text-preprocessor.js:3-9 | the result holds only ASCII letters, digits and the space; underscores are gone; no two spaces are adjacent; there is no space at either end |
| TextPreprocessor.PreprocessTextWords | src/utils/text-preprocessor.js:6-8 | each whitespace run of the kept characters becomes one space in place: the result is the words of the kept text joined by single spaces, those words are the nonempty whitespace-split pieces of the kept text, and splitting a nonempty result gives them back |
| TextPreprocessor.PreprocessIdempotent | src/utils/text-preprocessor.js:5-8 | cleaning a cleaned text changes nothing |
| TextPreprocessor.PreprocessKeepsAlnum | src/utils/text-preprocessor.js:6 | the ASCII letters and digits of the input survive in order and case, and no other letter or digit appears |
| TextTokenizing.TextTokenizer.constructor | src/core/text-tokenizer.js:2-4 | the stopword set is fixed at construction |
| TextTokenizing.TextTokenizer.PreprocessTextShape | src/core/text-tokenizer.js:22-24 | the cleaned text holds only `\w` characters and whitespace; it has no upper-case letter and no whitespace at either end; its word characters are the input's, in order, lower-cased |
| TextTokenizing.TextTokenizer.TokenizeShape | src/core/text-tokenizer.js:6-9 | no token holds whitespace or an upper-case letter, and none is a stopword |
| TextTokenizing.TextTokenizer.TokenizeJoin | src/core/text-tokenizer.js:6-9 | without stopwords, the tokens joined by single spaces give the cleaned text with its whitespace runs collapsed, so the split loses nothing else |
| TextTokenizing.TextTokenizer.TokenizeNoWords | src/core/text-tokenizer.js:6-9 | an input with no letter, digit or underscore gives the single token `""` (none if `""` is a stopword) |
| TextTokenizing.TextTokenizer.TokenizeNonempty | src/core/text-tokenizer.js:6-9 | an input with a word character gives no empty token |
| TextTokenizing.DropStopwords | src/core/text-tokenizer.js:8 | the kept pieces come from the input and none has a stopword as its lower-cased form |
| TextTokenizing.DropCounts | src/core/text-tokenizer.js:8 | every piece whose lower-cased form is not a stopword is kept exactly as often as it occurs, and every other piece is dropped |
| TextTokenizing.DropKeepsOthers | src/core/text-tokenizer.js:8 | every piece that is not a stopword is kept |
| TextTokenizing.DropStopwordsAppend | src/core/text-tokenizer.js:8 | the filter keeps order: filtering a concatenation is filtering each part and concatenating |
| TextTokenizing.DropNoStopwords | src/core/text-tokenizer.js:8 | with no stopwords, nothing is dropped |
| TextTokenizing.TextTokenizer.Ngram | src/core/text-tokenizer.js:11-20 | `max(0, tokens - n + 1)` items; item `i` is the slice `i .. i + n` of the tokens joined by single spaces; for `n = 1` the items are the tokens |
| TextTokenizing.Windows | src/core/text-tokenizer.js:14-17 | the loop's result has that length, and each item is the joined `slice(i, i + n)` |
| TextTokenizing.NgramWindows | src/core/text-tokenizer.js:11-20 | for a positive width every `slice` is an ordinary sub-sequence; width 1 gives back the tokens |
| DocumentProcessing.DocumentProcessor.constructor | src/core/document-processor.js:2-4 | a new processor holds an empty, freshly allocated list |
| DocumentProcessing.DocumentProcessor.LoadDocuments | src/core/document-processor.js:6-8 | the processor keeps the caller's array itself |
| DocumentProcessing.DocumentProcessor.Preprocess | src/core/document-processor.js:14-17 | the result has no whitespace at either end, trimming it again changes nothing, and its non-whitespace characters are the document's |
| DocumentProcessing.DocumentProcessor.ProcessDocuments | src/core/document-processor.js:10-12 | a new array of the same length holds the trimmed documents in order; all are trimmed; the previous array, which may be the caller's, is not written; already-trimmed documents come back unchanged |
| DocumentProcessing.DocumentProcessor.GetDocuments | src/core/document-processor.js:19-21 | returns the array currently held |
| DocumentProcessing.TrimAll | src/core/document-processor.js:11 | one trimmed document per document, in order |
| DocumentProcessing.TrimAllIdempotent | src/core/document-processor.js:10-17 | every trimmed document is trimmed, and trimming all of them twice is trimming once |
| DocumentProcessing.TrimAllOfTrimmed | src/core/document-processor.js:10-17 | trimmed documents are left as they are |
| TfidfCalculation.Words | src/core/tfidf-calculator.js:16 | a document always has at least one word (`split` never returns an empty list) |
| TfidfCalculation.TermFrequencyKeys | src/core/tfidf-calculator.js:16-21 | a document's TF keys are exactly its whitespace-split words lower-cased, none holding whitespace or an upper-case letter |
| TfidfCalculation.TermFrequencyValues | src/core/tfidf-calculator.js:16-22 | each TF value is occurrences over words, in (0, 1], and a document's values add up to 1 |
| TfidfCalculation.ShareFractions | src/core/tfidf-calculator.js:17-22 | one `1 / n` per occurrence among `n` words makes each entry occurrences over `n`, and the entries add up to 1 |
| TfidfCalculation.ShareSnoc | src/core/tfidf-calculator.js:21 | one more word adds one unit to its own entry and changes no other |
| TfidfCalculation.ShareTotal | src/core/tfidf-calculator.js:19-22 | the entries add up to one unit per word |
| TfidfCalculation.TermFrequencyOf | src/core/tfidf-calculator.js:13-26 | the arrow function's table is the document's term-frequency table |
| TfidfCalculation.Tally | src/core/tfidf-calculator.js:19-22 | the word loop gives each lower-cased word one unit per occurrence |
| TfidfCalculation.TermFrequencyTablesAt | src/core/tfidf-calculator.js:13 | table `i` is the table of document `i` |
| TfidfCalculation.DocumentFrequency | src/core/tfidf-calculator.js:36-44 | every counted word is held by at least one and at most all documents |
| TfidfCalculation.DocumentFrequencyExact | src/core/tfidf-calculator.js:40-42 | a word is counted exactly when some document holds it, and its count is the number of documents exactly when all hold it |
| TfidfCalculation.DocumentFrequencyOf | src/core/tfidf-calculator.js:36-44 | the `forEach` over the documents builds that frequency table |
| TfidfCalculation.IdfTable | src/core/tfidf-calculator.js:50-51 | one IDF entry per counted word |
| TfidfCalculation.IdfValues | src/core/tfidf-calculator.js:50-51 | with a monotone `ln`, no IDF is negative, and an IDF is 0 exactly for a word held by every document |
| TfidfCalculation.TermsHaveIdf | src/core/tfidf-calculator.js:40-51 | every TF key of every document has an IDF |
| TfidfCalculation.WriteIdf | src/core/tfidf-calculator.js:50-57 | the loop overwrites the entries of the counted words and keeps every other entry of the table |
| TfidfCalculation.Weigh | src/core/tfidf-calculator.js:70-73 | a document's TF-IDF table has exactly its TF keys |
| TfidfCalculation.WeighTerms | src/core/tfidf-calculator.js:70-73 | the loop over a table's words builds that TF-IDF table |
| TfidfCalculation.WeighAllAt | src/core/tfidf-calculator.js:68-75 | table `i` of the scores weighs TF table `i` |
| TfidfCalculation.WeighTables | src/core/tfidf-calculator.js:68-75 | the `map` over the TF tables weighs each table by the IDF table, in document order |
| TfidfCalculation.WeighAllOverride | src/core/tfidf-calculator.js:68-75 | stale IDF entries left from an earlier call never change the scores, because every word of every table is overwritten (the IDF entries are written at lines 50-51) |
| TfidfCalculation.ScoresAt | src/core/tfidf-calculator.js:68-75 | a document's scores are its TF table weighed by the IDF table; every one of its words has an IDF |
| TfidfCalculation.ScoreSign | src/core/tfidf-calculator.js:72 | with a monotone `ln`, no score is negative, and a word scores 0 exactly when every document holds it (the IDF comes from line 51) |
| TfidfCalculation.WeighSign | src/core/tfidf-calculator.js:72 | a positive TF times a non-negative IDF is not negative, and is 0 exactly when the IDF is |
| TfidfCalculation.TfidfCalculator.constructor | src/core/tfidf-calculator.js:2-9 | the documents are stored; all three tables start empty |
| TfidfCalculation.TfidfCalculator.CalculateTermFrequency | src/core/tfidf-calculator.js:11-28 | the TF field becomes one table per document, in document order; nothing else changes |
| TfidfCalculation.TfidfCalculator.CalculateInverseDocumentFrequency | src/core/tfidf-calculator.js:30-60 | the IDF field becomes its old entries overwritten by `log(N / df)` for every word of the documents; nothing else changes |
| TfidfCalculation.TfidfCalculator.CalculateTfidf | src/core/tfidf-calculator.js:62-78 | the TF field becomes the documents' tables, and the scores field becomes the TF-IDF tables, which depend on the documents alone |
| TfidfCalculation.TfidfCalculator.GetTfidfScores | src/core/tfidf-calculator.js:80-84 | the returned scores are the field and the TF-IDF tables of the documents; the TF field becomes the documents' tables, the IDF field its old entries overwritten by those of the documents, and the documents do not change |
| TfidfCalculation.GetTfidfScoresTwice | src/core/tfidf-calculator.js:80-84 | two calls on one calculator return equal scores |
| Scripts.StopwordsEnStart | src/app.js:12-15 | every English stopword is nonempty and starts with an ASCII letter |
| Scripts.StopwordsJaStart | src/app.js:7-10 | every Japanese stopword is nonempty and starts with a hiragana |
| SearchTokens.PreprocessAdvanced | src/app.js:71-73 | the cleaned text holds only allowed characters, has no two adjacent whitespace characters, and has none at either end |
| SearchTokens.PreprocessAdvancedWords | src/app.js:71-73 | each whitespace run of the allowed characters becomes one space in place: the result is the words of the filtered text joined by single spaces, those words are its nonempty whitespace-split pieces, and splitting a nonempty result gives them back |
| SearchTokens.PreprocessAdvancedKeeps | src/app.js:71-73 | every allowed visible character of the input survives, in order, and no other visible character appears |
| SearchTokens.PreprocessAdvancedIdempotent | src/app.js:71-73 | cleaning a cleaned text changes nothing |
| SearchTokens.Runs | src/app.js:107-123 | every match of a one-class pattern is a nonempty run of the class, at least the minimum long |
| SearchTokens.RunsFlatten | src/app.js:107-123 | the runs put back together are exactly the characters of the class: none missed, none twice |
| SearchTokens.RunsSplit | src/app.js:107-123 | a character outside the class separates runs: the runs of the whole are the runs of the two sides |
| SearchTokens.LetterWordsShape | src/app.js:93 | each English word is a nonempty string of ASCII letters, at least the minimum long (likewise at line 156) |
| SearchTokens.MixedWordHasNoLetterWord | src/app.js:93 | a word mixing letters and a digit gives no English word, since no word boundary falls between them |
| SearchTokens.Python3Tokens | src/app.js:80-150 | `Python3` tokenizes to the single token `3` under any options |
| SearchTokens.Round | src/app.js:100 | `Math.round` lies within one half of its argument (likewise at line 117) |
| SearchTokens.Copies | src/app.js:100 | a word gets no copy exactly when its weight is below one half (likewise at line 117) |
| SearchTokens.CopiesOfWeights | src/app.js:511-524 | weight 1.2 gives one copy; 1.5 and 2.0 give two |
| SearchTokens.EnglishStageShape | src/app.js:96-104 | English tokens are lower-case ASCII letter strings of at least the minimum length and, with stopwords on, no English stopword |
| SearchTokens.EnglishStageCount | src/app.js:96-104 | without the stopword filter, every word contributes exactly its number of copies |
| SearchTokens.KatakanaStageCount | src/app.js:115-120 | every katakana word contributes exactly its number of copies |
| SearchTokens.KanjiStageKeepsAll | src/app.js:126-130 | no kanji run is a Japanese stopword, so the filter on kanji runs removes nothing |
| SearchTokens.GramsShape | src/app.js:136-144 | each gram is a substring of the residual of the given width and, with stopwords on, no stopword |
| SearchTokens.NgramStageShape | src/app.js:136-144 | every gram's width lies between the stage's lower and upper widths (2 and the maximum n-gram size in the source); each is a substring of the residual and, with stopwords on, no stopword |
| SearchTokens.BasicNgramCount | src/app.js:159-164 | the basic tokenizer emits `max(0, L - 1) + max(0, L - 2)` grams for a residual of length `L` |
| SearchTokens.AdvancedResidualIsJapanese | src/app.js:133 | the advanced residual holds only Japanese letters and no punctuation |
| SearchTokens.BasicResidualKeepsPunct | src/app.js:159 | the basic residual keeps every punctuation mark of the cleaned text, in order |
| SearchTokens.AdvancedTokensNoStopwords | src/app.js:80-150 | with stopwords on, no advanced token is a stopword of either language |
| SearchTokens.BasicTokensCount | src/app.js:152-167 | the basic stream has one token per letter word plus `max(0, L - 1) + max(0, L - 2)` grams |
| SearchTokens.BasicWordsShape | src/app.js:156-157 | the basic stream starts with the lower-cased letter words, each a nonempty lower-case ASCII word |
| SearchTokens.LowerAll | src/app.js:157 | one lower-cased word per word, in order |
| SearchTokens.GetTokensAdvanced | src/app.js:80-150 | the token list is English words, digit runs, katakana words, kanji runs and the 2- to 4-grams, in that order |
| SearchTokens.PushEnglishWords | src/app.js:96-104 | the loop appends each surviving lower-cased word `Math.round(weight)` times in a row |
| SearchTokens.PushKatakanaWords | src/app.js:115-120 | the loop appends each katakana word `Math.round(weight)` times in a row |
| SearchTokens.PushKanjiRuns | src/app.js:126-130 | the loop appends the kanji runs that survive the stopword filter |
| SearchTokens.PushNgrams | src/app.js:136-144 | the nested loops append every window of width 2, then 3, and so on, minus stopwords |
| SearchTokens.GetTokensBasic | src/app.js:152-167 | the token list is the lower-cased letter words, then the unfiltered 2- and 3-grams of the residual |
| TfidfVectors.AllTokens | src/app.js:181-189 | one token list per text, each the tokenizer applied to that text with the options |
| TfidfVectors.TermWeights | src/app.js:199-217 | a text's term-frequency table has exactly its distinct tokens as keys |
| TfidfVectors.TokenizeAll | src/app.js:181-189 | the loop tokenizes the documents followed by the query |
| TfidfVectors.CountTerms | src/app.js:199-217 | counting then weighting gives the text's term-frequency table |
| TfidfVectors.DocumentFrequencies | src/app.js:226-238 | the pass over the texts gives, for each token, the number of texts holding it |
| TfidfVectors.CountOnce | src/app.js:230-233 | one text adds one to the frequency of each of its distinct tokens and changes no other |
| TfidfVectors.DfOrOne | src/app.js:242 | the fallback is at least 1 and equals the stored frequency whenever that is at least 1 |
| TfidfVectors.DfOfVocabulary | src/app.js:222-242 | every vocabulary token has a frequency between 1 and the number of texts, so the `\|\| 1` fallback is never taken |
| TfidfVectors.DfTableBounds | src/app.js:226-238 | every stored frequency is between 1 and the number of texts, the query included |
| TfidfVectors.DocFreqBounds | src/app.js:229-233 | a token's frequency is at most the number of texts; at least 1 exactly when some text holds it; all of them exactly when every text does |
| TfidfVectors.IdfTable | src/app.js:241-256 | one IDF per vocabulary token |
| TfidfVectors.IdfValues | src/app.js:241-256 | the loop computes the IDF of every vocabulary token |
| TfidfVectors.ImprovedIdfAtLeastOne | src/app.js:244-246 | the smoothed IDF of every vocabulary token is at least 1 |
| TfidfVectors.LogTfPositive | src/app.js:211-212 | the log-scaled weight of every token of a text is positive |
| TfidfVectors.SparseVector | src/app.js:269-289 | a text's vector keeps its positive weights and is scaled by its length when normalisation is on |
| TfidfVectors.PositiveWeights | src/app.js:272-281 | the loop keeps exactly the positive products and adds up their squares |
| TfidfVectors.AddWeight | src/app.js:273-281 | one token adds its product exactly when the TF and the product are positive, and its square to a running sum of squares |
| TfidfVectors.Scale | src/app.js:284-289 | every weight is divided by the length |
| TfidfVectors.ComputeTfidf | src/app.js:170-312 | the vocabulary is the distinct tokens in first-occurrence order; there is one vector per text, the query's last; `docVectors` are the documents' in order; `vocabSize` is the vocabulary's length |
| TfidfVectors.TermFrequencies | src/app.js:199-217 | one term-frequency table per text, in order |
| TfidfVectors.SparseVectorsOf | src/app.js:264-298 | one sparse vector per text, in order |
| TfidfVectors.VocabularyShape | src/app.js:193 | the vocabulary has no duplicates and holds every token of every text |
| TfidfVectors.VectorsPositive | src/app.js:269-289 | every vector has keys only among its own text's tokens, with positive weights |
| TfidfVectors.NormalizedKeeps | src/app.js:284-289 | normalisation keeps the key set and keeps positive weights positive |
| TfidfVectors.ImprovedVectorKeys | src/app.js:273-281 | under the default smoothed IDF, a text's vector has a weight for exactly its distinct tokens (with the defaults, TF and IDF of lines 174-175, 211-212 and 244-246) |
| TfidfVectors.RawKeepsAll | src/app.js:273-281 | with positive term frequencies and IDFs, every token is kept |
| TfidfVectors.StandardIdfDropsUbiquitous | src/app.js:249-276 | with the standard IDF, a token held by every text gets IDF 0 and no weight in any vector |
| TfidfVectors.UbiquitousIdf | src/app.js:241-249 | with the standard IDF, a token held by every text is in the IDF table with value `log(N / N) = 0` |
| TfidfVectors.RawDropsZeroIdf | src/app.js:275-276 | a token whose IDF is 0 gets no weight |
| TfidfVectors.LnSign | src/app.js:246-249 | with `LnLaws`, `ln` is positive above 1 and not negative from 1 on |
| TfidfVectors.ImprovedIdfValue | src/app.js:246 | the smoothed IDF of a token held by 1 to `n` of `n` texts is at least 1 |
| TfidfVectors.DotOfDisjoint | src/app.js:315-331 | two texts with no shared token have inner product 0 |
| TfidfVectors.DotOfImproved | src/app.js:315-331 | under the smoothed IDF, the inner product is positive exactly when the texts share a token (with the default of lines 174-175) |
| SparseVectors.DotOverSplit | src/app.js:323-328 | any key can be summed first: the sum does not depend on the order of the keys |
| SparseVectors.DotOverSymmetric | src/app.js:321 | the sum is symmetric in the two vectors |
| SparseVectors.DotProperties | src/app.js:315-331 | the inner product is symmetric, non-negative for non-negative vectors, and 0 when no key is shared |
| SparseVectors.DotPositive | src/app.js:315-331 | vectors of positive weights have a positive inner product exactly when they share a key |
| Similarity.CosineSimilarity | src/app.js:315-331 | the loop over the smaller map returns the inner product of the two vectors, whichever is smaller |
| Similarity.SumShared | src/app.js:318-328 | the loop over one map adds exactly the products over the keys both maps hold |
| Similarity.DotStep | src/app.js:323-328 | one more key of the smaller map adds its product exactly when the larger map has it |
| Similarity.JaccardSimilarity | src/app.js:337-343 | the coefficient lies in [0, 1] |
| Similarity.JaccardProperties | src/app.js:337-343 | symmetric; 0 exactly when there is no token or the sets are disjoint; 1 exactly when the sets are equal and nonempty |
| Similarity.SubsetCard | src/app.js:340-342 | the intersection is no larger than the union, and as large only when they are equal |
| Similarity.MatchCount | src/app.js:454-460 | no more matches than query words |
| Similarity.MatchCountExtremes | src/app.js:454-460 | no match exactly when no query word occurs in a text word; all match exactly when every one does |
| Similarity.CalculateSimilarity | src/app.js:442-463 | the loop returns the substring score |
| Similarity.SimpleScoreProperties | src/app.js:442-463 | the score lies in [0, 1]; the empty query scores 1; 1 exactly when the query occurs or every query word occurs in a text word; 0 exactly when neither happens for any query word |
| Ranking.Insert | src/app.js:365 | inserting adds exactly the one element |
| Ranking.SortBySimilarity | src/app.js:365 | the sort is a permutation (likewise at lines 402 and 430) |
| Ranking.InsertRanked | src/app.js:365 | inserting a later document into a ranked list keeps it ranked |
| Ranking.SortRanked | src/app.js:365 | hits in document order come out sorted by descending score, ties in document order (likewise at lines 402 and 430) |
| Ranking.HitsProperties | src/app.js:352-363 | the hits are exactly the documents above the threshold, in document order, each with its 1-based index, text and score (likewise at lines 388-400 and 419-428) |
| Ranking.SortedHits | src/app.js:365 | the sorted hits are ranked and hold exactly the hits (likewise at lines 402 and 430) |
| Ranking.RankShape | src/app.js:365-368 | the results are ranked, and each reports the text and score of the document at its 1-based index, above the threshold |
| Ranking.RankLength | src/app.js:368 | for `topN >= 0` there are `min(topN, hits)` results; with `topN` at least the number of documents, every hit is a result (likewise at lines 406 and 433) |
| Ranking.RankKeepsBest | src/app.js:365-368 | a hit that was cut off scores no higher than any result kept |
| Ranking.RankedPrefixBeatsRest | src/app.js:365-368 | in a ranked list, every element of a prefix scores at least as high as any element outside it |
| Ranking.TopResult | src/app.js:365-368 | with `topN >= 1` and some hit, there is a first result, scoring at least as high as every hit |
| Ranking.TopScoreOne | src/app.js:365-368 | when no score exceeds 1 and some hit scores 1, the first result scores 1 |
| Ranking.HitsSnoc | src/app.js:352-363 | scanning one more document appends it exactly when it scores above the threshold |
| Ranking.HitsLength | src/app.js:352-363 | there are no more hits than documents |
| Search.Texts | src/app.js:380 | one text per document, in order |
| Search.JaccardScores | src/app.js:352-354 | each document's score is its Jaccard coefficient with the query |
| Search.SearchJaccard | src/app.js:346-374 | the outcome is the ranked documents with a positive coefficient, at most `topN` of them, named `Jaccard係数`, with the number of distinct query tokens |
| Search.JaccardRankProperties | src/app.js:346-374 | every result is a document sharing a token with the query, scored by its coefficient; a document with the query's nonempty token set puts a result scoring 1 first |
| Search.SearchTfidf | src/app.js:376-412 | the outcome is the ranked documents whose score with the query exceeds 0.001, at most `topN` of them, with the vectoriser's vocabulary size |
| Search.CosineHits | src/app.js:388-400 | the `forEach` over the document vectors keeps, in document order, those whose cosine with the query exceeds 0.001, with 1-based index, score and text |
| Search.TfidfSearchProperties | src/app.js:376-412 | a document sharing no token with the query scores 0 and is never returned; every result scores above the threshold |
| Search.ImprovedTfidfScorePositive | src/app.js:376-412 | under the smoothed IDF, a document scores above 0 exactly when it shares a token with the query |
| Search.TfidfScoreIs | src/app.js:388-389 | the score is the inner product of the two texts' vectors: 0 without shared tokens, positive with them under the smoothed IDF |
| Search.PerformSimpleSearch | src/app.js:415-439 | the outcome is the ranked documents with a positive substring score, named `単純部分一致`, with the number of whitespace-separated query pieces |
| Search.SimpleScores | src/app.js:419-420 | each document's score is its substring score against the query |
| Search.SimpleSearchResults | src/app.js:415-439 | every result is a document holding the query or one of its words (ignoring ASCII case), scored in (0, 1] |
| Search.SimpleSearchTop | src/app.js:415-448 | a document holding the whole query scores 1, so the first result scores 1 |
| Search.ParseAlgorithmInvertsName | src/app.js:496-530 | each algorithm is selected by its own name and no other string; any other string is rejected |
| Search.ProfileSettings | src/app.js:505-526 | every TF-IDF profile normalises and uses the smoothed IDF; `tfidf_advanced` gives English words one copy and katakana words two; `tfidf_ultra` gives both two; both drop stopwords |
| Search.LinesWhere | src/app.js:477-479 | the filter keeps no more lines than it is given |
| Search.LinesWhereExact | src/app.js:477-479 | the filter keeps exactly the lines the predicate accepts |
| Search.DocumentsOfProperties | src/app.js:477-484 | each document is a non-blank line of the file without a line feed; every non-blank line is a document; there is none exactly when every line is blank |
| Search.RunAlgorithm | src/app.js:496-526 | each case runs its search with its tokenizer, display name and options |
| Search.PerformSearch | src/app.js:466-530 | a file with no non-blank line is an error, checked before the name; an unknown name is an error; otherwise the chosen search runs (defaults `tfidf_ultra` and 5) |
| Search.SearchOutcomeProperties | src/app.js:466-530 | an error exactly in those two cases; on success the results are ranked, at most `topN`, each a line of the file |
| Search.AlgorithmSearchRanked | src/app.js:496-526 | whichever algorithm runs, its results are ranked, at most `topN`, each a line of the file |
| Search.RankOutcome | src/app.js:368 | ranked results over a file's documents are ranked, at most `topN`, each a line of the file (likewise at lines 406 and 433, over the documents of lines 477-479) |
| Text.SplitWs | src/app.js:452-453 | `split(/\s+/)` gives at least one piece and no piece holds whitespace |
| Text.JoinSplit | src/app.js:452-453 | joining the pieces with single spaces collapses each whitespace run to one space |
| Text.Words | src/app.js:452-453 | the words of a string are nonempty and hold no whitespace |
| Text.WordsAreNonEmptyPieces | src/app.js:452-453 | the words are exactly the nonempty pieces of `split(/\s+/)`, in order |
| Text.SplitJoinSpace | src/core/text-tokenizer.js:8 | splitting nonempty whitespace-free words joined by single spaces gives the words back |
| Text.TrimCollapseWords | src/utils/text-preprocessor.js:7-8 | collapsing whitespace runs and trimming gives the words joined by single spaces, and splitting a nonempty outcome gives the words back |
| Text.SplitLines | src/app.js:477 | `split('\n')` gives at least one piece and no piece holds a line feed |
| Text.JoinSplitLines | src/app.js:477 | joining the lines with line feeds gives the file content back |
| Seqs.JsSlice | src/app.js:368 | within bounds `slice` is the ordinary sub-sequence; it is never longer than its input (likewise at lines 406 and 433) |
| Seqs.JsSlicePrefix | src/app.js:368 | `slice(0, n)` is a prefix of `min(n, length)` elements when `n >= 0` (likewise at lines 406 and 433) |
| Seqs.FlattenMembers | src/app.js:193 | an element is in the flattened list exactly when some inner list holds it |
| Seqs.DedupProperties | src/app.js:193 | `[...new Set(xs)]` keeps every element once, in order of first occurrence |

## Left out

- Console output, `Date.now()` timings, `process.memoryUsage()` and the `executionTime` and
  `preprocessingTime` fields: diagnostics only.
- File access in `performSearch`: the existence check, `readFileSync` and result printing. The
  model starts from the file's text.
- `handleInput`, `showHelp`, `main` and the CLI and example modules: argument plumbing and
  output.
- Floating point. Weights, logarithms, square roots and scores are exact reals, with `Math.log`
  and `Math.sqrt` as parameters constrained by `LnLaws` and `SqrtLaws`. No numeric equality
  between floating-point results is claimed.
- The dense-array branch of `cosineSimilarityAdvanced` (`vec1.reduce(...)`): the vectoriser
  only produces `Map`s, so it is never reached.
- Insertion order of JavaScript objects and `Map`s. Vectors and tables are Dafny maps. Order
  only changes the order of floating-point additions, which exact reals do not see.
- Keys inherited from `Object.prototype`. For example, the TF table of a document containing
  the word `constructor` starts from the inherited function rather than 0, and `__proto__`
  cannot be stored as a key. Every key is modelled as an ordinary own key.
- Option values that are not booleans or numbers (for example `useL2Norm: 0`). Options are
  typed.
- Unicode case mapping and surrogate pairs. `toLowerCase` is modelled on ASCII letters only,
  and strings are sequences of code points. Every character the cleaners keep is in the Basic
  Multilingual Plane.
- src/core/similarity-search.js is not part of this model. It calls a TF-IDF method that
  `TfidfCalculator` does not define.
- Search.SearchTfidf: has no `useAdvanced` parameter, because `searchTFIDF` never reads it.
- TextTokenizing.TextTokenizer.constructor: takes the stopword set as a parameter. The source
  reads a `stopwords` property off the exported `Set`, which has none, so at run time the set
  is empty. `TokenizeJoin` states what the empty set gives.
- Ranking.SortBySimilarity: specifies `Array.prototype.sort` as a stable insertion by
  descending score. The language requires `sort` to be stable, and the comparator only
  compares scores.
- TfidfCalculation.Weigh: requires every TF key to have an IDF, where the source would compute
  `NaN` for a missing one. In `calculateTfidf` the condition always holds (`TermsHaveIdf`).
  The same holds for `TfidfCalculation.WeighTerms`.
- TfidfCalculation.TfidfCalculator.CalculateInverseDocumentFrequency: the field is updated
  entry by entry, as in the source. The order in which the `for ... in` loop visits words is
  not modelled.
- Search.PerformSearch: models the outcome. Errors are `Err` values instead of a console
  message followed by `undefined`.
- SearchTokens.GetTokensAdvanced: the `ngramCount` counter is not returned, since it is only
  logged.
