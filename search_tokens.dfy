/** The cleaner and the two script-aware tokenizers of the search pipeline in src/app.js.
    Each regular expression that matches one character class with a quantifier is modelled
    by the maximal runs of that class (`Runs`); no regular-expression engine is modelled. */
module SearchTokens {
  import opened Wrappers
  import opened Text
  import opened Seqs
  import opened Scripts

  // ----- preprocessTextAdvanced -----

  /** `preprocessTextAdvanced`: drop every character outside the allowed class, collapse
      whitespace runs to one space, trim. */
  function PreprocessAdvanced(text: string): (r: string)
    ensures All(r, Allowed)
    ensures SingleSpaced(r)
    ensures Trimmed(r)
  {
    var kept := Filter(text, Allowed);
    var collapsed := Collapse(kept);
    CollapseKeepsClass(kept, Allowed);
    CollapseSingleSpaced(kept);
    TrimKeeps(collapsed, Allowed);
    Trim(collapsed)
  }

  /** Each whitespace run of the allowed characters becomes one space in place: the result
      is the words of the filtered text joined by single spaces, those words are the nonempty
      pieces of splitting the filtered text on whitespace, and splitting a nonempty result
      gives them back. */
  lemma PreprocessAdvancedWords(text: string)
    ensures PreprocessAdvanced(text) == JoinSpace(Words(Filter(text, Allowed)))
    ensures Words(Filter(text, Allowed)) == NonEmpty(SplitWs(Filter(text, Allowed)))
    ensures PreprocessAdvanced(text) != [] ==>
      SplitWs(PreprocessAdvanced(text)) == Words(Filter(text, Allowed))
  {
    var kept := Filter(text, Allowed);
    TrimCollapseWords(kept);
    assert PreprocessAdvanced(text) == Trim(Collapse(kept));
  }

  /** Every allowed non-whitespace character of the input survives, in order, and nothing
      else that is not whitespace appears. */
  lemma PreprocessAdvancedKeeps(text: string)
    ensures Filter(PreprocessAdvanced(text), Visible) == Filter(text, Visible)
  {
    var kept := Filter(text, Allowed);
    var collapsed := Collapse(kept);
    FilterTrim(collapsed, Visible);
    FilterTwice(collapsed, NotSpace, Visible);
    CollapseKeepsText(kept);
    FilterTwice(kept, NotSpace, Visible);
    FilterTwice(text, Allowed, Visible);
  }

  /** Cleaning twice is cleaning once. */
  lemma PreprocessAdvancedIdempotent(text: string)
    ensures PreprocessAdvanced(PreprocessAdvanced(text)) == PreprocessAdvanced(text)
  {
    var y := PreprocessAdvanced(text);
    FilterIdentity(y, Allowed);
    CollapseOfSingleSpaced(y);
    TrimOfTrimmed(y);
  }

  // ----- maximal runs -----

  /** Length of the leading run of characters of class `p`. */
  function RunLength(s: string, p: char -> bool): (n: nat)
    ensures n <= |s|
    ensures All(s[..n], p)
    ensures n == |s| || !p(s[n])
  {
    if s == [] || !p(s[0]) then 0 else 1 + RunLength(s[1..], p)
  }

  /** `s.match(/[p]{min,}/g) || []`: the maximal runs of class `p` that are at least `min`
      long, left to right. */
  function Runs(s: string, p: char -> bool, min: nat): (r: seq<string>)
    ensures forall k :: 0 <= k < |r| ==> r[k] != [] && |r[k]| >= min && All(r[k], p)
    decreases |s|
  {
    if s == [] then []
    else if !p(s[0]) then Runs(s[1..], p, min)
    else
      var n := RunLength(s, p);
      (if n >= min then [s[..n]] else []) + Runs(s[n..], p, min)
  }

  /** A character outside the class separates runs: the runs of the two sides are the runs
      of the whole. */
  lemma {:induction false} RunsSplit(x: string, c: char, y: string, p: char -> bool, min: nat)
    requires !p(c)
    ensures Runs(x + [c] + y, p, min) == Runs(x, p, min) + Runs(y, p, min)
    decreases |x|
  {
    var s := x + [c] + y;
    if x == [] {
      assert s[1..] == y;
    } else if !p(x[0]) {
      assert s[1..] == x[1..] + [c] + y;
      RunsSplit(x[1..], c, y, p, min);
    } else {
      var n := RunLength(x, p);
      RunLengthExtend(x, [c] + y, p);
      assert s == x + ([c] + y);
      assert RunLength(s, p) == n;
      assert s[..n] == x[..n] && s[n..] == x[n..] + [c] + y;
      RunsSplit(x[n..], c, y, p, min);
      var head: seq<string> := if n >= min then [x[..n]] else [];
      assert Runs(s, p, min) == head + (Runs(x[n..], p, min) + Runs(y, p, min));
      assert Runs(x, p, min) == head + Runs(x[n..], p, min);
    }
  }

  lemma RunLengthExtend(x: string, z: string, p: char -> bool)
    requires z != [] && !p(z[0])
    ensures RunLength(x + z, p) == RunLength(x, p)
    decreases |x|
  {
    if x != [] && p(x[0]) {
      assert (x + z)[1..] == x[1..] + z;
      RunLengthExtend(x[1..], z, p);
    }
  }

  /** Characters outside the class before the first run are skipped. */
  lemma {:induction false} RunsSkip(x: string, y: string, p: char -> bool, min: nat)
    requires forall i :: 0 <= i < |x| ==> !p(x[i])
    ensures Runs(x + y, p, min) == Runs(y, p, min)
  {
    if x != [] {
      assert (x + y)[1..] == x[1..] + y;
      RunsSkip(x[1..], y, p, min);
    } else {
      assert x + y == y;
    }
  }

  /** A nonempty string made only of the class is one run. */
  lemma RunsWhole(w: string, p: char -> bool, min: nat)
    requires w != [] && All(w, p)
    ensures Runs(w, p, min) == if |w| >= min then [w] else []
  {
    RunLengthAll(w, p);
    assert w[..|w|] == w && w[|w|..] == [];
    assert Runs(w[|w|..], p, min) == [];
  }

  lemma {:induction false} RunLengthAll(w: string, p: char -> bool)
    requires All(w, p)
    ensures RunLength(w, p) == |w|
  {
    if w != [] {
      RunLengthAll(w[1..], p);
    }
  }

  /** A string with no character of the class has no runs. */
  lemma {:induction false} RunsNone(s: string, p: char -> bool, min: nat)
    requires forall i :: 0 <= i < |s| ==> !p(s[i])
    ensures Runs(s, p, min) == []
  {
    if s != [] {
      RunsNone(s[1..], p, min);
    }
  }

  /** The runs, put back together, are exactly the characters of the class: no character of
      the class is missed and none is counted twice. */
  lemma {:induction false} RunsFlatten(s: string, p: char -> bool)
    ensures Flatten(Runs(s, p, 1)) == Filter(s, p)
    decreases |s|
  {
    if s != [] {
      if !p(s[0]) {
        RunsFlatten(s[1..], p);
      } else {
        var n := RunLength(s, p);
        RunsFlatten(s[n..], p);
        FlattenCons(s[..n], Runs(s[n..], p, 1));
        assert s == s[..n] + s[n..];
        FilterAppend(s[..n], s[n..], p);
        FilterIdentity(s[..n], p);
      }
    }
  }

  // ----- English words -----

  /** The runs made only of ASCII letters and at least `min` long, in order. */
  function LetterRuns(runs: seq<string>, min: nat): (r: seq<string>)
    ensures |r| <= |runs|
    ensures forall k :: 0 <= k < |r| ==> r[k] in runs && All(r[k], IsAsciiLetter) && |r[k]| >= min
  {
    if runs == [] then []
    else
      var rest := LetterRuns(runs[1..], min);
      if All(runs[0], IsAsciiLetter) && |runs[0]| >= min then [runs[0]] + rest else rest
  }

  /** `s.match(/\b[a-zA-Z]{min,}\b/g) || []`. A match must start and end at a word boundary,
      so it is a maximal run of `\w` characters that happens to hold letters only. */
  function LetterWords(s: string, min: nat): seq<string>
  {
    LetterRuns(Runs(s, IsWordChar, 1), min)
  }

  /** Every English word is a nonempty string of ASCII letters at least `min` long. */
  lemma LetterWordsShape(s: string, min: nat)
    ensures forall k :: 0 <= k < |LetterWords(s, min)| ==>
      LetterWords(s, min)[k] != [] && All(LetterWords(s, min)[k], IsAsciiLetter) &&
      |LetterWords(s, min)[k]| >= min
  {
    var runs := Runs(s, IsWordChar, 1);
    forall k | 0 <= k < |LetterWords(s, min)| ensures LetterWords(s, min)[k] != [] {
      var w := LetterWords(s, min)[k];
      assert w in runs;
    }
  }

  /** A word that mixes letters with a digit (such as `Python3`) yields no English word:
      the boundary the pattern needs never falls between the letters and the digit. */
  lemma MixedWordHasNoLetterWord(w: string, i: nat, min: nat)
    requires All(w, IsWordChar) && i < |w| && IsDigit(w[i])
    ensures LetterWords(w, min) == []
  {
    RunsWhole(w, IsWordChar, 1);
    assert !All(w, IsAsciiLetter);
  }

  lemma Python3HasNoEnglishWord()
    ensures LetterWords("Python3", 2) == []
  {
    MixedWordHasNoLetterWord("Python3", 6, 2);
  }

  // ----- options and weights -----

  /** The options object shared by the tokenizer and the vectorizer; `None` is a property
      that is not set. */
  datatype Options = Options(
    useStopwords: Option<bool>,
    katakanaWeight: Option<real>,
    englishWeight: Option<real>,
    useL2Norm: Option<bool>,
    useImprovedIDF: Option<bool>)

  const NoOptions := Options(None, None, None, None, None)

  /** Destructuring defaults: `useStopwords = true`, `katakanaWeight = 1.5`,
      `englishWeight = 1.2`, taken only when the property is not set. */
  function UseStopwords(o: Options): bool { match o.useStopwords case None => true case Some(b) => b }

  function KatakanaWeight(o: Options): real { match o.katakanaWeight case None => 1.5 case Some(w) => w }

  function EnglishWeight(o: Options): real { match o.englishWeight case None => 1.2 case Some(w) => w }

  /** `Math.round`: the nearest integer, halves rounded up. */
  function Round(x: real): (r: int)
    ensures x - 0.5 < r as real <= x + 0.5
  {
    (x + 0.5).Floor
  }

  /** Number of iterations of `for (let i = 0; i < Math.round(w); i++)`. */
  function Copies(weight: real): (n: nat)
    ensures n == 0 <==> weight < 0.5
  {
    Max(0, Round(weight))
  }

  /** The weights used by the default options and by the `tfidf_advanced` and `tfidf_ultra`
      profiles: 1.2 gives one copy, 1.5 and 2.0 give two. */
  lemma CopiesOfWeights()
    ensures Copies(1.2) == 1 && Copies(1.5) == 2 && Copies(2.0) == 2
  {
  }

  /** `!useStopwords || !stopwords.has(w)` */
  predicate Survives(w: string, useStopwords: bool, stopwords: set<string>) {
    !useStopwords || w !in stopwords
  }

  // ----- the stages of getTokensAdvanced -----

  /** Each English word, lower-cased, `copies` times in a row unless it is a stopword. */
  function EnglishStage(words: seq<string>, useStopwords: bool, copies: nat): seq<string>
  {
    if words == [] then []
    else
      var lower := Lower(words[|words| - 1]);
      EnglishStage(words[..|words| - 1], useStopwords, copies) +
        (if Survives(lower, useStopwords, StopwordsEn) then Repeat(lower, copies) else [])
  }

  /** Each katakana word `copies` times in a row; no stopword filter applies. */
  function KatakanaStage(words: seq<string>, copies: nat): seq<string>
  {
    if words == [] then []
    else KatakanaStage(words[..|words| - 1], copies) + Repeat(words[|words| - 1], copies)
  }

  /** The kanji runs that are not Japanese stopwords. */
  function KanjiStage(runs: seq<string>, useStopwords: bool): seq<string>
  {
    if runs == [] then []
    else
      var last := runs[|runs| - 1];
      KanjiStage(runs[..|runs| - 1], useStopwords) +
        (if Survives(last, useStopwords, StopwordsJa) then [last] else [])
  }

  /** Number of windows of width `n` in a string of length `len`. */
  function WindowCount(len: nat, n: nat): nat { Max(0, len - n + 1) }

  /** The substrings `s[i..i + n]` for `i < k`, left to right, without Japanese stopwords. */
  function Grams(s: string, n: nat, k: nat, useStopwords: bool): seq<string>
    requires k == 0 || k + n <= |s| + 1
  {
    if k == 0 then []
    else
      var g := s[k - 1..k - 1 + n];
      Grams(s, n, k - 1, useStopwords) + (if Survives(g, useStopwords, StopwordsJa) then [g] else [])
  }

  /** All windows of width `lo`, then all of width `lo + 1`, …, up to width `hi`. */
  function NgramStage(s: string, lo: nat, hi: nat, useStopwords: bool): seq<string>
    requires 1 <= lo
    decreases hi
  {
    if hi < lo then []
    else NgramStage(s, lo, hi - 1, useStopwords) + Grams(s, hi, WindowCount(|s|, hi), useStopwords)
  }

  function EnglishTokens(clean: string, o: Options): seq<string>
  {
    EnglishStage(LetterWords(clean, 2), UseStopwords(o), Copies(EnglishWeight(o)))
  }

  function KatakanaTokens(clean: string, o: Options): seq<string>
  {
    KatakanaStage(Runs(clean, IsKatakanaWordChar, 2), Copies(KatakanaWeight(o)))
  }

  function AdvancedNgrams(clean: string, o: Options): seq<string>
  {
    NgramStage(Filter(clean, AdvancedResidualChar), 2, 4, UseStopwords(o))
  }

  /** The token stream of `getTokensAdvanced`: English words, digit runs, katakana words,
      kanji runs and the 2- to 4-grams of the Japanese residual, in that order. */
  function AdvancedTokens(text: string, o: Options): seq<string>
  {
    StagesOf(PreprocessAdvanced(text), o)
  }

  function StagesOf(clean: string, o: Options): seq<string>
  {
    EnglishTokens(clean, o) + Runs(clean, IsDigit, 1) + KatakanaTokens(clean, o) +
      KanjiStage(Runs(clean, IsKanji, 1), UseStopwords(o)) + AdvancedNgrams(clean, o)
  }

  /** `words.map(w => w.toLowerCase())` */
  function LowerAll(words: seq<string>): (r: seq<string>)
    ensures |r| == |words|
    ensures forall k :: 0 <= k < |words| ==> r[k] == Lower(words[k])
  {
    seq(|words|, k requires 0 <= k < |words| => Lower(words[k]))
  }

  /** The token stream of `getTokensBasic`: the lower-cased letter words, then the unfiltered
      2- and 3-grams of the residual. */
  function BasicTokens(text: string): seq<string>
  {
    var clean := PreprocessAdvanced(text);
    LowerAll(LetterWords(clean, 1)) + NgramStage(Filter(clean, BasicResidualChar), 2, 3, false)
  }

  // ----- properties of the stages -----

  /** English tokens are lower-case ASCII letter strings at least `min` long and, when
      stopwords are on, never an English stopword. */
  lemma {:induction false} EnglishStageShape(words: seq<string>, useStopwords: bool, copies: nat, min: nat)
    requires forall k :: 0 <= k < |words| ==> All(words[k], IsAsciiLetter) && |words[k]| >= min
    ensures forall k :: 0 <= k < |EnglishStage(words, useStopwords, copies)| ==>
      var t := EnglishStage(words, useStopwords, copies)[k];
      All(t, IsAsciiLetter) && IsLower(t) && |t| >= min && Survives(t, useStopwords, StopwordsEn)
  {
    if words != [] {
      EnglishStageShape(words[..|words| - 1], useStopwords, copies, min);
      var lower := Lower(words[|words| - 1]);
      assert All(lower, IsAsciiLetter) && IsLower(lower);
    }
  }

  /** Without the stopword filter, every word contributes exactly `copies` tokens. */
  lemma {:induction false} EnglishStageCount(words: seq<string>, copies: nat)
    ensures |EnglishStage(words, false, copies)| == copies * |words|
  {
    if words != [] {
      var m := |words| - 1;
      EnglishStageCount(words[..m], copies);
      assert |EnglishStage(words, false, copies)| == copies * m + copies;
      assert copies * m + copies == copies * |words| by {
        MultiplySucc(copies, m);
      }
    }
  }

  /** Every katakana word contributes exactly `copies` tokens. */
  lemma {:induction false} KatakanaStageCount(words: seq<string>, copies: nat)
    ensures |KatakanaStage(words, copies)| == copies * |words|
  {
    if words != [] {
      var m := |words| - 1;
      KatakanaStageCount(words[..m], copies);
      assert |KatakanaStage(words, copies)| == copies * m + copies;
      assert copies * m + copies == copies * |words| by {
        MultiplySucc(copies, m);
      }
    }
  }

  lemma MultiplySucc(a: nat, b: nat)
    ensures a * b + a == a * (b + 1)
  {
  }

  /** No kanji run is a Japanese stopword, so the stopword check on kanji runs never removes
      anything. */
  lemma {:induction false} KanjiStageKeepsAll(runs: seq<string>, useStopwords: bool)
    requires forall k :: 0 <= k < |runs| ==> runs[k] != [] && All(runs[k], IsKanji)
    ensures KanjiStage(runs, useStopwords) == runs
  {
    if runs != [] {
      var init, last := runs[..|runs| - 1], runs[|runs| - 1];
      KanjiStageKeepsAll(init, useStopwords);
      StopwordsJaStart();
      assert !IsHiragana(last[0]);
      assert runs == init + [last];
    }
  }

  /** Without the stopword filter there is one gram per window. */
  lemma {:induction false} GramsCount(s: string, n: nat, k: nat)
    requires k == 0 || k + n <= |s| + 1
    ensures |Grams(s, n, k, false)| == k
  {
    if k > 0 {
      GramsCount(s, n, k - 1);
    }
  }

  /** Each gram is a substring of `s` of width `n` and, with stopwords on, not a stopword. */
  lemma {:induction false} GramsShape(s: string, n: nat, k: nat, useStopwords: bool)
    requires k == 0 || k + n <= |s| + 1
    ensures forall j :: 0 <= j < |Grams(s, n, k, useStopwords)| ==>
      var g := Grams(s, n, k, useStopwords)[j];
      |g| == n && Survives(g, useStopwords, StopwordsJa) && Contains(s, g)
  {
    if k > 0 {
      GramsShape(s, n, k - 1, useStopwords);
      var a := Grams(s, n, k - 1, useStopwords);
      var g := s[k - 1..k - 1 + n];
      var b: seq<string> := if Survives(g, useStopwords, StopwordsJa) then [g] else [];
      assert g <= s[k - 1..];
      forall j | 0 <= j < |a + b|
        ensures |(a + b)[j]| == n && Survives((a + b)[j], useStopwords, StopwordsJa) && Contains(s, (a + b)[j])
      {
        if j >= |a| { assert (a + b)[j] == g; }
      }
    }
  }

  /** The basic tokenizer emits exactly `max(0, L - 1) + max(0, L - 2)` grams for a residual
      of length `L`. */
  lemma BasicNgramCount(s: string)
    ensures |NgramStage(s, 2, 3, false)| == Max(0, |s| - 1) + Max(0, |s| - 2)
  {
    GramsCount(s, 2, WindowCount(|s|, 2));
    GramsCount(s, 3, WindowCount(|s|, 3));
    assert NgramStage(s, 2, 1, false) == [];
  }

  /** The grams of widths `lo` to `hi` are substrings of `s` of such a width and, with
      stopwords on, never a Japanese stopword. */
  lemma {:induction false} NgramStageShape(s: string, lo: nat, hi: nat, useStopwords: bool)
    requires 1 <= lo
    ensures forall j :: 0 <= j < |NgramStage(s, lo, hi, useStopwords)| ==>
      var g := NgramStage(s, lo, hi, useStopwords)[j];
      lo <= |g| <= hi && Survives(g, useStopwords, StopwordsJa) && Contains(s, g)
    decreases hi
  {
    if hi >= lo {
      NgramStageShape(s, lo, hi - 1, useStopwords);
      GramsShape(s, hi, WindowCount(|s|, hi), useStopwords);
      var a := NgramStage(s, lo, hi - 1, useStopwords);
      var b := Grams(s, hi, WindowCount(|s|, hi), useStopwords);
      forall j | 0 <= j < |a + b|
        ensures lo <= |(a + b)[j]| <= hi && Survives((a + b)[j], useStopwords, StopwordsJa) && Contains(s, (a + b)[j])
      {
        if j < |a| { assert (a + b)[j] == a[j]; } else { assert (a + b)[j] == b[j - |a|]; }
      }
    }
  }

  /** The residual of the advanced tokenizer holds only Japanese letters: every space,
      ASCII letter, digit and punctuation mark is gone. */
  lemma AdvancedResidualIsJapanese(clean: string)
    requires All(clean, Allowed)
    ensures All(Filter(clean, AdvancedResidualChar), IsJapanese)
    ensures Filter(Filter(clean, AdvancedResidualChar), IsPunct) == []
  {
    var r := Filter(clean, AdvancedResidualChar);
    FilterSub(clean, AdvancedResidualChar, Allowed);
    FilterNone(r, IsPunct);
  }

  /** The residual of the basic tokenizer keeps every punctuation mark of the cleaned text,
      in order, so punctuation takes part in its grams. */
  lemma BasicResidualKeepsPunct(clean: string)
    ensures Filter(Filter(clean, BasicResidualChar), IsPunct) == Filter(clean, IsPunct)
  {
    FilterTwice(clean, BasicResidualChar, IsPunct);
  }

  lemma {:induction false} KatakanaStageMembers(words: seq<string>, copies: nat)
    ensures forall t :: t in KatakanaStage(words, copies) ==> t in words
  {
    if words != [] {
      KatakanaStageMembers(words[..|words| - 1], copies);
    }
  }

  lemma {:induction false} KanjiStageMembers(runs: seq<string>, useStopwords: bool)
    ensures forall t :: t in KanjiStage(runs, useStopwords) ==> t in runs && Survives(t, useStopwords, StopwordsJa)
  {
    if runs != [] {
      KanjiStageMembers(runs[..|runs| - 1], useStopwords);
    }
  }

  /** Neither an English nor a Japanese stopword. */
  predicate NoStopword(t: string) { t !in StopwordsEn && t !in StopwordsJa }

  /** A token whose first character is a digit, a katakana or a kanji is no stopword. */
  lemma NonHiraganaStart(t: string)
    requires t != [] && (IsDigit(t[0]) || IsKatakanaWordChar(t[0]) || IsKanji(t[0]))
    ensures NoStopword(t)
  {
    assert !IsAsciiLetter(t[0]) && !IsHiragana(t[0]);
    StopwordsEnStart();
    StopwordsJaStart();
  }

  lemma EnglishNoStopwords(clean: string, o: Options)
    requires UseStopwords(o)
    ensures forall t :: t in EnglishTokens(clean, o) ==> NoStopword(t)
  {
    var english := EnglishTokens(clean, o);
    LetterWordsShape(clean, 2);
    EnglishStageShape(LetterWords(clean, 2), true, Copies(EnglishWeight(o)), 2);
    forall t | t in english ensures NoStopword(t) {
      var k :| 0 <= k < |english| && english[k] == t;
      assert IsAsciiLetter(t[0]);
      StopwordsJaStart();
    }
  }

  lemma RunsNoStopwords(clean: string, p: char -> bool, min: nat)
    requires forall c :: p(c) ==> IsDigit(c) || IsKatakanaWordChar(c) || IsKanji(c)
    ensures forall t :: t in Runs(clean, p, min) ==> NoStopword(t)
  {
    var runs := Runs(clean, p, min);
    forall t | t in runs ensures NoStopword(t) {
      var k :| 0 <= k < |runs| && runs[k] == t;
      NonHiraganaStart(t);
    }
  }

  lemma NgramsNoStopwords(clean: string, o: Options)
    requires All(clean, Allowed) && UseStopwords(o)
    ensures forall t :: t in AdvancedNgrams(clean, o) ==> NoStopword(t)
  {
    var residual := Filter(clean, AdvancedResidualChar);
    var grams := AdvancedNgrams(clean, o);
    AdvancedResidualIsJapanese(clean);
    NgramStageShape(residual, 2, 4, true);
    forall t | t in grams ensures NoStopword(t) {
      var k :| 0 <= k < |grams| && grams[k] == t;
      ContainsAll(residual, t, IsJapanese);
      assert IsJapanese(t[0]) && Survives(t, true, StopwordsJa);
      StopwordsEnStart();
    }
  }

  /** With stopwords on, no token of any stage of a cleaned text is a stopword of either
      language: English words and grams are filtered, and digit, katakana and kanji runs
      start with a character no stopword starts with. */
  lemma StagesNoStopwords(clean: string, o: Options)
    requires All(clean, Allowed) && UseStopwords(o)
    ensures forall t :: t in StagesOf(clean, o) ==> NoStopword(t)
  {
    EnglishNoStopwords(clean, o);
    RunsNoStopwords(clean, IsDigit, 1);
    var katakanaRuns := Runs(clean, IsKatakanaWordChar, 2);
    RunsNoStopwords(clean, IsKatakanaWordChar, 2);
    KatakanaStageMembers(katakanaRuns, Copies(KatakanaWeight(o)));
    var kanjiRuns := Runs(clean, IsKanji, 1);
    RunsNoStopwords(clean, IsKanji, 1);
    KanjiStageMembers(kanjiRuns, true);
    NgramsNoStopwords(clean, o);
  }

  /** With stopwords on, `getTokensAdvanced` never emits a stopword of either language. */
  lemma AdvancedTokensNoStopwords(text: string, o: Options)
    requires UseStopwords(o)
    ensures forall t :: t in AdvancedTokens(text, o) ==> NoStopword(t)
  {
    StagesNoStopwords(PreprocessAdvanced(text), o);
  }

  /** Counting the basic stream: one token per letter word, then
      `max(0, L - 1) + max(0, L - 2)` grams for a residual of length `L`. */
  lemma BasicTokensCount(text: string)
    ensures var clean := PreprocessAdvanced(text);
      |BasicTokens(text)| == |LetterWords(clean, 1)| +
        Max(0, |Filter(clean, BasicResidualChar)| - 1) + Max(0, |Filter(clean, BasicResidualChar)| - 2)
  {
    BasicNgramCount(Filter(PreprocessAdvanced(text), BasicResidualChar));
  }

  /** The first part of the basic stream is the lower-cased letter words, each a nonempty
      string of lower-case ASCII letters. */
  lemma BasicWordsShape(text: string)
    ensures var words := LowerAll(LetterWords(PreprocessAdvanced(text), 1));
      BasicTokens(text)[..|words|] == words &&
      forall k :: 0 <= k < |words| ==> words[k] != [] && All(words[k], IsAsciiLetter) && IsLower(words[k])
  {
    var clean := PreprocessAdvanced(text);
    LetterWordsShape(clean, 1);
    var words := LowerAll(LetterWords(clean, 1));
    forall k | 0 <= k < |words| ensures words[k] != [] && All(words[k], IsAsciiLetter) && IsLower(words[k]) {
      assert words[k] == Lower(LetterWords(clean, 1)[k]);
    }
  }

  /** `Python3` is already clean. */
  lemma Python3IsClean()
    ensures PreprocessAdvanced("Python3") == "Python3"
  {
    Python3Alnum();
    AlnumIsClean("Python3");
  }

  lemma Python3Alnum()
    ensures All("Python3", IsAsciiAlnum)
  {
    var s := "Python3";
    assert s[0] == 'P' && s[1] == 'y' && s[2] == 't' && s[3] == 'h' && s[4] == 'o' && s[5] == 'n' && s[6] == '3';
  }

  /** A string of ASCII letters and digits is left as it is by the cleaner. */
  lemma AlnumIsClean(s: string)
    requires All(s, IsAsciiAlnum)
    ensures PreprocessAdvanced(s) == s
  {
    assert All(s, Allowed);
    FilterIdentity(s, Allowed);
    assert NoSpace(s);
    assert SingleSpaced(s);
    CollapseOfSingleSpaced(s);
    TrimOfTrimmed(s);
  }

  lemma Python3Digits()
    ensures Runs("Python3", IsDigit, 1) == ["3"]
  {
    RunsSkip("Python", "3", IsDigit, 1);
    assert "Python3" == "Python" + "3";
    RunsWhole("3", IsDigit, 1);
  }

  /** When every stage but the digit runs is empty, the stream is the digit runs. */
  lemma StagesDigitsOnly(s: string, o: Options)
    requires EnglishTokens(s, o) == [] && KatakanaTokens(s, o) == []
    requires KanjiStage(Runs(s, IsKanji, 1), UseStopwords(o)) == [] && AdvancedNgrams(s, o) == []
    ensures StagesOf(s, o) == Runs(s, IsDigit, 1)
  {
    EmptyAround(EnglishTokens(s, o), Runs(s, IsDigit, 1), KatakanaTokens(s, o),
      KanjiStage(Runs(s, IsKanji, 1), UseStopwords(o)), AdvancedNgrams(s, o));
  }

  lemma NoEnglishStage(s: string, o: Options)
    requires LetterWords(s, 2) == []
    ensures EnglishTokens(s, o) == []
  {
  }

  lemma EmptyAround(a: seq<string>, b: seq<string>, c: seq<string>, d: seq<string>, e: seq<string>)
    requires a == [] && c == [] && d == [] && e == []
    ensures a + b + c + d + e == b
  {
  }

  /** A clean text without Japanese characters has no katakana words, no kanji runs and an
      empty residual. */
  lemma NoJapaneseStages(s: string, o: Options)
    requires All(s, Allowed)
    requires forall i :: 0 <= i < |s| ==> !IsJapanese(s[i])
    ensures KatakanaTokens(s, o) == []
    ensures KanjiStage(Runs(s, IsKanji, 1), UseStopwords(o)) == []
    ensures AdvancedNgrams(s, o) == []
  {
    NoKatakanaOrKanji(s);
    EmptyStages(o);
    NoResidual(s);
  }

  /** The katakana, kanji and n-gram stages of nothing are empty. */
  lemma EmptyStages(o: Options)
    ensures KatakanaStage([], Copies(KatakanaWeight(o))) == []
    ensures KanjiStage([], UseStopwords(o)) == []
    ensures NgramStage([], 2, 4, UseStopwords(o)) == []
  {
    assert NgramStage([], 2, 1, UseStopwords(o)) == [];
    assert Grams([], 2, WindowCount(0, 2), UseStopwords(o)) == [];
    assert Grams([], 3, WindowCount(0, 3), UseStopwords(o)) == [];
    assert Grams([], 4, WindowCount(0, 4), UseStopwords(o)) == [];
  }

  /** A text without Japanese characters has no katakana words and no kanji runs. */
  lemma NoKatakanaOrKanji(s: string)
    requires forall i :: 0 <= i < |s| ==> !IsJapanese(s[i])
    ensures Runs(s, IsKatakanaWordChar, 2) == [] && Runs(s, IsKanji, 1) == []
  {
    RunsNone(s, IsKatakanaWordChar, 2);
    RunsNone(s, IsKanji, 1);
  }

  /** A clean text without Japanese characters leaves nothing for the n-grams. */
  lemma NoResidual(s: string)
    requires All(s, Allowed)
    requires forall i :: 0 <= i < |s| ==> !IsJapanese(s[i])
    ensures Filter(s, AdvancedResidualChar) == []
  {
    forall i | 0 <= i < |s| ensures !AdvancedResidualChar(s[i]) {
      assert Allowed(s[i]) && !IsJapanese(s[i]);
    }
    FilterNone(s, AdvancedResidualChar);
  }

  /** `Python3` gives the single token `3`: no English word (the digit blocks the word
      boundary), one digit run, and no Japanese text. */
  lemma Python3Tokens(o: Options)
    ensures AdvancedTokens("Python3", o) == ["3"]
  {
    var s := "Python3";
    Python3IsClean();
    Python3HasNoEnglishWord();
    Python3Digits();
    NoEnglishStage(s, o);
    Python3Alnum();
    AlnumNotJapanese(s);
    NoJapaneseStages(s, o);
    StagesDigitsOnly(s, o);
  }

  /** ASCII letters and digits are allowed characters and not Japanese ones. */
  lemma AlnumNotJapanese(s: string)
    requires All(s, IsAsciiAlnum)
    ensures All(s, Allowed)
    ensures forall i :: 0 <= i < |s| ==> !IsJapanese(s[i])
  {
  }

  // ----- the tokenizers -----

  lemma EmptyLeft(a: seq<string>)
    ensures [] + a == a
  {
  }

  lemma Assoc(a: seq<string>, b: seq<string>, c: seq<string>)
    ensures a + (b + c) == a + b + c
  {
  }

  /** `getTokensAdvanced(text, options)` */
  method GetTokensAdvanced(text: string, options: Options) returns (tokens: seq<string>)
    ensures tokens == AdvancedTokens(text, options)
  {
    var useStopwords := UseStopwords(options);
    var clean := PreprocessAdvanced(text);
    tokens := [];
    var englishWords := LetterWords(clean, 2);
    tokens := PushEnglishWords(tokens, englishWords, useStopwords, EnglishWeight(options));
    assert tokens == EnglishTokens(clean, options) by {
      EmptyLeft(EnglishTokens(clean, options));
    }
    var numbers := Runs(clean, IsDigit, 1);
    tokens := tokens + numbers;
    var katakanaWords := Runs(clean, IsKatakanaWordChar, 2);
    tokens := PushKatakanaWords(tokens, katakanaWords, KatakanaWeight(options));
    var kanjiSequences := Runs(clean, IsKanji, 1);
    tokens := PushKanjiRuns(tokens, kanjiSequences, useStopwords);
    var japanese := Filter(clean, AdvancedResidualChar);
    tokens := PushNgrams(tokens, japanese, 4, useStopwords);
  }

  /** The loop over the English words: push each lower-cased word `Math.round(weight)` times
      unless it is an English stopword. */
  method PushEnglishWords(tokens: seq<string>, words: seq<string>, useStopwords: bool, weight: real)
    returns (result: seq<string>)
    ensures result == tokens + EnglishStage(words, useStopwords, Copies(weight))
  {
    result := tokens;
    var copies := Copies(weight);
    var w := 0;
    while w < |words|
      invariant 0 <= w <= |words|
      invariant result == tokens + EnglishStage(words[..w], useStopwords, copies)
    {
      var lower := Lower(words[w]);
      assert words[..w + 1][..w] == words[..w];
      ghost var before := result;
      if !useStopwords || !(lower in StopwordsEn) {
        var i := 0;
        while i < Round(weight)
          invariant 0 <= i <= copies
          invariant result == before + Repeat(lower, i)
        {
          result := result + [lower];
          i := i + 1;
        }
      }
      Assoc(tokens, EnglishStage(words[..w], useStopwords, copies),
        if Survives(lower, useStopwords, StopwordsEn) then Repeat(lower, copies) else []);
      w := w + 1;
    }
    assert words[..|words|] == words;
  }

  /** The loop over the katakana words: push each word `Math.round(weight)` times. */
  method PushKatakanaWords(tokens: seq<string>, words: seq<string>, weight: real)
    returns (result: seq<string>)
    ensures result == tokens + KatakanaStage(words, Copies(weight))
  {
    result := tokens;
    var copies := Copies(weight);
    var w := 0;
    while w < |words|
      invariant 0 <= w <= |words|
      invariant result == tokens + KatakanaStage(words[..w], copies)
    {
      var word := words[w];
      assert words[..w + 1][..w] == words[..w];
      ghost var before := result;
      var i := 0;
      while i < Round(weight)
        invariant 0 <= i <= copies
        invariant result == before + Repeat(word, i)
      {
        result := result + [word];
        i := i + 1;
      }
      Assoc(tokens, KatakanaStage(words[..w], copies), Repeat(word, copies));
      w := w + 1;
    }
    assert words[..|words|] == words;
  }

  /** The loop over the kanji runs: push each run unless it is a Japanese stopword. */
  method PushKanjiRuns(tokens: seq<string>, runs: seq<string>, useStopwords: bool)
    returns (result: seq<string>)
    ensures result == tokens + KanjiStage(runs, useStopwords)
  {
    result := tokens;
    var w := 0;
    while w < |runs|
      invariant 0 <= w <= |runs|
      invariant result == tokens + KanjiStage(runs[..w], useStopwords)
    {
      var run := runs[w];
      assert runs[..w + 1][..w] == runs[..w];
      if !useStopwords || !(run in StopwordsJa) {
        result := result + [run];
      }
      Assoc(tokens, KanjiStage(runs[..w], useStopwords),
        if Survives(run, useStopwords, StopwordsJa) then [run] else []);
      w := w + 1;
    }
    assert runs[..|runs|] == runs;
  }

  /** The nested loops `for (let n = 2; n <= hi; n++) for (let i = 0; i <= s.length - n; i++)`
      that push `s.substring(i, i + n)` unless it is a Japanese stopword. */
  method PushNgrams(tokens: seq<string>, s: string, hi: nat, useStopwords: bool)
    returns (result: seq<string>)
    ensures result == tokens + NgramStage(s, 2, hi, useStopwords)
  {
    result := tokens;
    var n := 2;
    while n <= hi
      invariant 2 <= n <= Max(2, hi + 1)
      invariant result == tokens + NgramStage(s, 2, n - 1, useStopwords)
    {
      ghost var before := result;
      var i := 0;
      while i <= |s| - n
        invariant 0 <= i <= WindowCount(|s|, n)
        invariant result == before + Grams(s, n, i, useStopwords)
      {
        var ngram := s[i..i + n];
        if !useStopwords || ngram !in StopwordsJa {
          result := result + [ngram];
        }
        i := i + 1;
      }
      Assoc(tokens, NgramStage(s, 2, n - 1, useStopwords), Grams(s, n, WindowCount(|s|, n), useStopwords));
      n := n + 1;
    }
  }

  /** `getTokensBasic(text)` */
  method GetTokensBasic(text: string) returns (tokens: seq<string>)
    ensures tokens == BasicTokens(text)
  {
    var clean := PreprocessAdvanced(text);
    tokens := [];
    var englishWords := LetterWords(clean, 1);
    tokens := tokens + LowerAll(englishWords);
    EmptyLeft(LowerAll(englishWords));
    var japanese := Filter(clean, BasicResidualChar);
    tokens := PushNgrams(tokens, japanese, 3, false);
  }
}
