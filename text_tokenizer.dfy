/** The word tokenizer of src/core/text-tokenizer.js. */
module TextTokenizing {
  import opened Text
  import opened Seqs

  /** Survives `replace(/[^\w\s]/g, '')`: `\w` characters (underscore included) and whitespace. */
  predicate WordOrSpace(c: char) { IsWordChar(c) || IsSpace(c) }

  /** The pieces whose lower-cased form is not a stopword, in order. */
  function DropStopwords(pieces: seq<string>, stopwords: set<string>): (r: seq<string>)
    ensures |r| <= |pieces|
    ensures forall k :: 0 <= k < |r| ==> r[k] in pieces && Lower(r[k]) !in stopwords
  {
    if pieces == [] then []
    else
      var rest := DropStopwords(pieces[1..], stopwords);
      if Lower(pieces[0]) in stopwords then rest else [pieces[0]] + rest
  }

  /** Every piece that is not a stopword is kept, as often as it occurs, and every other
      piece is dropped. */
  lemma {:induction false} DropCounts(pieces: seq<string>, stopwords: set<string>)
    ensures forall p :: multiset(DropStopwords(pieces, stopwords))[p] ==
                       (if Lower(p) in stopwords then 0 else multiset(pieces)[p])
  {
    if pieces != [] {
      DropCounts(pieces[1..], stopwords);
      assert pieces == [pieces[0]] + pieces[1..];
    }
  }

  /** In particular every piece that is not a stopword is kept. */
  lemma DropKeepsOthers(pieces: seq<string>, stopwords: set<string>)
    ensures forall p :: p in pieces && Lower(p) !in stopwords ==> p in DropStopwords(pieces, stopwords)
  {
    DropCounts(pieces, stopwords);
    forall p | p in pieces && Lower(p) !in stopwords ensures p in DropStopwords(pieces, stopwords) {
      assert multiset(DropStopwords(pieces, stopwords))[p] == multiset(pieces)[p] > 0;
    }
  }

  /** The filter keeps the order of the pieces: filtering a concatenation filters each part. */
  lemma {:induction false} DropStopwordsAppend(a: seq<string>, b: seq<string>, stopwords: set<string>)
    ensures DropStopwords(a + b, stopwords) == DropStopwords(a, stopwords) + DropStopwords(b, stopwords)
  {
    if a != [] {
      ConsAppend(a, b);
      DropCons(a + b, stopwords);
      DropCons(a, stopwords);
      DropStopwordsAppend(a[1..], b, stopwords);
    } else {
      assert a + b == b;
    }
  }

  /** The first piece's contribution: itself, unless it is a stopword. */
  function KeepPiece(piece: string, stopwords: set<string>): seq<string>
  {
    if Lower(piece) in stopwords then [] else [piece]
  }

  lemma DropCons(pieces: seq<string>, stopwords: set<string>)
    requires pieces != []
    ensures DropStopwords(pieces, stopwords) == KeepPiece(pieces[0], stopwords) + DropStopwords(pieces[1..], stopwords)
  {
    var rest := DropStopwords(pieces[1..], stopwords);
    if Lower(pieces[0]) in stopwords { assert [] + rest == rest; }
  }

  lemma {:induction false} DropNoStopwords(pieces: seq<string>)
    ensures DropStopwords(pieces, {}) == pieces
  {
    if pieces != [] { DropNoStopwords(pieces[1..]); }
  }

  class TextTokenizer {
    /** Set once by the constructor. The source reads a `stopwords` property off the exported
        `Set`, which is absent, so at run time this set is empty; here it is a parameter. */
    const stopwords: set<string>

    constructor(stopwords: set<string>)
      ensures this.stopwords == stopwords
    {
      this.stopwords := stopwords;
    }

    /** `preprocessText`: keep `\w` and whitespace characters, lower-case, trim. */
    function PreprocessText(text: string): string
    {
      Trim(Lower(Filter(text, WordOrSpace)))
    }

    /** The cleaned text holds only `\w` characters and whitespace, has no upper-case letter
        and no whitespace at either end, and keeps the word characters of the input, in order,
        lower-cased. */
    lemma PreprocessTextShape(text: string)
      ensures All(PreprocessText(text), WordOrSpace)
      ensures IsLower(PreprocessText(text))
      ensures Trimmed(PreprocessText(text))
      ensures Filter(PreprocessText(text), IsWordChar) == Lower(Filter(text, IsWordChar))
    {
      var kept := Filter(text, WordOrSpace);
      var lowered := Lower(kept);
      LowerKeeps(kept);
      TrimKeeps(lowered, WordOrSpace);
      FilterTrim(lowered, IsWordChar);
      FilterLower(kept, IsWordChar);
      FilterTwice(text, WordOrSpace, IsWordChar);
    }

    /** `tokenize`: the cleaned text split on whitespace runs, without the pieces whose
        lower-cased form is a stopword. */
    function Tokenize(text: string): seq<string>
    {
      DropStopwords(SplitWs(PreprocessText(text)), stopwords)
    }

    /** No token holds whitespace or an upper-case letter, and none is a stopword. */
    lemma TokenizeShape(text: string)
      ensures forall k :: 0 <= k < |Tokenize(text)| ==>
        NoSpace(Tokenize(text)[k]) && IsLower(Tokenize(text)[k]) && Lower(Tokenize(text)[k]) !in stopwords
    {
      PreprocessTextShape(text);
      SplitKeepsLower(PreprocessText(text));
    }

    /** `ngram(text, n)`: the windows of `n` consecutive tokens, joined by single spaces. */
    method Ngram(text: string, n: int) returns (ngrams: seq<string>)
      ensures |ngrams| == Max(0, |Tokenize(text)| - n + 1)
      ensures forall i :: 0 <= i < |ngrams| ==>
        ngrams[i] == JoinSpace(JsSlice(Tokenize(text), i, i + n))
      ensures n >= 1 ==> forall i :: 0 <= i < |ngrams| ==>
        ngrams[i] == JoinSpace(Tokenize(text)[i..i + n])
      ensures n == 1 ==> ngrams == Tokenize(text)
    {
      var tokens := Tokenize(text);
      ngrams := Windows(tokens, n);
      NgramWindows(tokens, n, ngrams);
    }

    /** Without stopwords the tokens, joined by single spaces, give back the cleaned text
        with its whitespace runs collapsed. */
    lemma TokenizeJoin(text: string)
      requires stopwords == {}
      ensures JoinSpace(Tokenize(text)) == Collapse(PreprocessText(text))
    {
      DropNoStopwords(SplitWs(PreprocessText(text)));
      JoinSplit(PreprocessText(text));
    }

    /** An input with no letter, digit or underscore (the empty string, or punctuation only)
        tokenizes to the single empty token unless the empty string is a stopword. */
    lemma TokenizeNoWords(text: string)
      requires Filter(text, IsWordChar) == []
      ensures Tokenize(text) == if "" in stopwords then [] else [""]
    {
      var cleaned := PreprocessText(text);
      PreprocessTextShape(text);
      assert Filter(cleaned, IsWordChar) == [];
      TrimmedHasWord(cleaned);
      assert SplitWs(cleaned) == [""];
      assert Lower("") == "";
    }

    /** A text with at least one word character yields nonempty tokens only. */
    lemma TokenizeNonempty(text: string)
      requires Filter(text, IsWordChar) != []
      ensures forall k :: 0 <= k < |Tokenize(text)| ==> Tokenize(text)[k] != []
    {
      var cleaned := PreprocessText(text);
      PreprocessTextShape(text);
      assert |Filter(cleaned, IsWordChar)| > 0;
      SplitTrimmedPieces(cleaned);
    }
  }

  /** The loop of `ngram`: for `i` from 0 while `i <= tokens.length - n`, push
      `tokens.slice(i, i + n).join(' ')`. */
  method Windows(tokens: seq<string>, n: int) returns (ngrams: seq<string>)
    ensures |ngrams| == Max(0, |tokens| - n + 1)
    ensures forall i :: 0 <= i < |ngrams| ==> ngrams[i] == JoinSpace(JsSlice(tokens, i, i + n))
  {
    ngrams := [];
    var i := 0;
    while i <= |tokens| - n
      invariant 0 <= i <= Max(0, |tokens| - n + 1)
      invariant |ngrams| == i
      invariant forall k :: 0 <= k < i ==> ngrams[k] == JoinSpace(JsSlice(tokens, k, k + n))
    {
      ngrams := ngrams + [JoinSpace(JsSlice(tokens, i, i + n))];
      i := i + 1;
    }
  }

  /** For a positive width the windows are plain slices; for width one they are the tokens. */
  lemma NgramWindows(tokens: seq<string>, n: int, ngrams: seq<string>)
    requires |ngrams| == Max(0, |tokens| - n + 1)
    requires forall k :: 0 <= k < |ngrams| ==> ngrams[k] == JoinSpace(JsSlice(tokens, k, k + n))
    ensures n >= 1 ==> forall k :: 0 <= k < |ngrams| ==> ngrams[k] == JoinSpace(tokens[k..k + n])
    ensures n == 1 ==> ngrams == tokens
  {
    if n == 1 {
      forall k | 0 <= k < |ngrams| ensures ngrams[k] == tokens[k] {
        assert JsSlice(tokens, k, k + 1) == [tokens[k]];
      }
    }
  }

  /** A trimmed string of word characters and whitespace is empty exactly when it has no
      word character. */
  lemma TrimmedHasWord(s: string)
    requires All(s, WordOrSpace) && Trimmed(s)
    ensures s != [] ==> Filter(s, IsWordChar) != []
  {
    if s != [] {
      assert Filter(s, IsWordChar) == [s[0]] + Filter(s[1..], IsWordChar);
    }
  }

  lemma LowerKeeps(s: string)
    requires All(s, WordOrSpace)
    ensures All(Lower(s), WordOrSpace) && IsLower(Lower(s))
  {
  }

  /** Lower-casing commutes with filtering by a class that lower-casing preserves. */
  lemma {:induction false} FilterLower(s: string, p: char -> bool)
    requires forall c :: p(c) <==> p(ToLowerChar(c))
    ensures Filter(Lower(s), p) == Lower(Filter(s, p))
  {
    if s != [] {
      FilterLower(s[1..], p);
      assert Lower(s)[1..] == Lower(s[1..]);
      assert Lower(s) == [ToLowerChar(s[0])] + Lower(s[1..]);
      var rest := Filter(s[1..], p);
      if p(s[0]) {
        assert Lower([s[0]] + rest) == [ToLowerChar(s[0])] + Lower(rest);
      }
    }
  }

  /** Splitting a lower-case string gives lower-case pieces. */
  lemma {:induction false} SplitKeepsLower(s: string)
    requires IsLower(s)
    ensures forall k :: 0 <= k < |SplitWs(s)| ==> IsLower(SplitWs(s)[k])
    decreases |s|
  {
    var n := WordLength(s);
    if n < |s| {
      SplitKeepsLower(TrimStart(s[n..]));
    }
  }
}
