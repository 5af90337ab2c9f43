/** The stopword lists and the character classes of the search pipeline in src/app.js.
    Ranges are written with the characters the source's regular expressions use. */
module Scripts {
  import opened Text

  // ----- stopwords -----

  const StopwordsJa: set<string> := {
    "の", "に", "は", "を", "が", "で", "て", "と", "だ", "である", "です", "ます",
    "から", "まで", "より", "など", "また", "ただし", "しかし", "そして", "それ", "これ"
  }

  const StopwordsEn: set<string> := {
    "the", "a", "an", "and", "or", "but", "in", "on", "at", "to", "for", "of", "with", "by",
    "is", "are", "was", "were", "be", "been", "have", "has", "had", "do", "does", "did"
  }

  // ----- character classes -----

  /** `ぁ-ん` */
  predicate IsHiragana(c: char) { 'ぁ' <= c <= 'ん' }

  /** `ァ-ヶ` */
  predicate IsKatakanaLetter(c: char) { 'ァ' <= c <= 'ヶ' }

  /** `ヷ-ヺ` */
  predicate IsKatakanaExtra(c: char) { 'ヷ' <= c <= 'ヺ' }

  /** `ー`, the prolonged sound mark. */
  predicate IsLongVowelMark(c: char) { c == 'ー' }

  /** `一-龥` */
  predicate IsKanji(c: char) { '一' <= c <= '龥' }

  predicate IsPunct(c: char) {
    c == '、' || c == '。' || c == '！' || c == '？' || c == '.' || c == ',' || c == '!' || c == '?'
  }

  predicate IsJapanese(c: char) {
    IsHiragana(c) || IsKatakanaLetter(c) || IsKatakanaExtra(c) || IsLongVowelMark(c) || IsKanji(c)
  }

  /** The class the cleaner keeps: `[a-zA-Z0-9ぁ-んァ-ヶヷ-ヺー一-龥、。！？\s.,!?]`. */
  predicate Allowed(c: char) { IsAsciiAlnum(c) || IsJapanese(c) || IsPunct(c) || IsSpace(c) }

  /** An allowed character that is not whitespace. */
  predicate Visible(c: char) { Allowed(c) && !IsSpace(c) }

  /** `[ァ-ヶー]`, the class of katakana words. */
  predicate IsKatakanaWordChar(c: char) { IsKatakanaLetter(c) || IsLongVowelMark(c) }

  /** Kept in the residual of the advanced tokenizer: not in `[a-zA-Z0-9\s.,!?、。！？]`. */
  predicate AdvancedResidualChar(c: char) { !(IsAsciiAlnum(c) || IsSpace(c) || IsPunct(c)) }

  /** Kept in the residual of the basic tokenizer: not in `[a-zA-Z0-9\s]`. */
  predicate BasicResidualChar(c: char) { !(IsAsciiAlnum(c) || IsSpace(c)) }

  /** English stopwords start with an ASCII letter. */
  lemma StopwordsEnStart()
    ensures forall w :: w in StopwordsEn ==> w != [] && IsAsciiLetter(w[0])
  {
  }

  /** Japanese stopwords start with a hiragana. */
  lemma StopwordsJaStart()
    ensures forall w :: w in StopwordsJa ==> w != [] && IsHiragana(w[0])
  {
  }
}
