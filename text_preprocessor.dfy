/** The stand-alone cleaner of src/utils/text-preprocessor.js. */
module TextPreprocessor {
  import opened Text

  /** Survives `replace(/[^\w\s]|_/g, '')`: ASCII letters, digits and whitespace
      (the underscore, although a `\w` character, is removed by the second alternative). */
  predicate Kept(c: char) { IsAsciiAlnum(c) || IsSpace(c) }

  predicate AlnumOrSpace(c: char) { IsAsciiAlnum(c) || c == ' ' }

  /** `preprocessText`: drop punctuation and underscores, collapse whitespace runs to one
      space, trim. The result holds only ASCII alphanumerics and single inner spaces. */
  function PreprocessText(text: string): (r: string)
    ensures All(r, AlnumOrSpace)
    ensures SingleSpaced(r)
    ensures Trimmed(r)
  {
    var kept := Filter(text, Kept);
    var collapsed := Collapse(kept);
    CollapseKeepsClass(kept, Kept);
    CollapseSingleSpaced(kept);
    TrimKeeps(collapsed, Kept);
    Trim(collapsed)
  }

  /** Each whitespace run of the kept characters becomes one space in place: the result is
      the words of the kept text joined by single spaces, those words are the nonempty pieces
      of splitting the kept text on whitespace, and splitting a nonempty result gives them
      back. */
  lemma PreprocessTextWords(text: string)
    ensures PreprocessText(text) == JoinSpace(Words(Filter(text, Kept)))
    ensures Words(Filter(text, Kept)) == NonEmpty(SplitWs(Filter(text, Kept)))
    ensures PreprocessText(text) != [] ==> SplitWs(PreprocessText(text)) == Words(Filter(text, Kept))
  {
    var kept := Filter(text, Kept);
    TrimCollapseWords(kept);
    assert PreprocessText(text) == Trim(Collapse(kept));
  }

  /** Cleaning twice is cleaning once. */
  lemma PreprocessIdempotent(text: string)
    ensures PreprocessText(PreprocessText(text)) == PreprocessText(text)
  {
    var y := PreprocessText(text);
    assert All(y, Kept);
    FilterIdentity(y, Kept);
    CollapseOfSingleSpaced(y);
    TrimOfTrimmed(y);
  }

  /** Every ASCII letter and digit of the input survives, in order and in its original case,
      and nothing else alphanumeric appears. */
  lemma PreprocessKeepsAlnum(text: string)
    ensures Filter(PreprocessText(text), IsAsciiAlnum) == Filter(text, IsAsciiAlnum)
  {
    var kept := Filter(text, Kept);
    var collapsed := Collapse(kept);
    FilterTrim(collapsed, IsAsciiAlnum);
    FilterTwice(collapsed, NotSpace, IsAsciiAlnum);
    CollapseKeepsText(kept);
    FilterTwice(kept, NotSpace, IsAsciiAlnum);
    FilterTwice(text, Kept, IsAsciiAlnum);
  }
}
