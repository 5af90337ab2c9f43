/** Character classes and the string operations of the JavaScript runtime that the
    cleaners and tokenizers are built from. Strings are sequences of code points;
    lower-casing is ASCII-only (the cleaned texts only ever carry ASCII letters). */
module Text {

  /** ECMAScript `\s`: the WhiteSpace and LineTerminator code points. `String.prototype.trim`
      removes exactly the same set. */
  predicate IsSpace(c: char) {
    var n := c as int;
    n == 0x09 || n == 0x0A || n == 0x0B || n == 0x0C || n == 0x0D || n == 0x20 ||
    n == 0xA0 || n == 0x1680 || (0x2000 <= n <= 0x200A) || n == 0x2028 || n == 0x2029 ||
    n == 0x202F || n == 0x205F || n == 0x3000 || n == 0xFEFF
  }

  predicate NotSpace(c: char) { !IsSpace(c) }

  predicate IsAsciiLetter(c: char) { 'a' <= c <= 'z' || 'A' <= c <= 'Z' }

  /** `\d` (no `u` flag): ASCII digits only. */
  predicate IsDigit(c: char) { '0' <= c <= '9' }

  predicate IsAsciiAlnum(c: char) { IsAsciiLetter(c) || IsDigit(c) }

  /** `\w` (no `u` flag): `[A-Za-z0-9_]`. */
  predicate IsWordChar(c: char) { IsAsciiAlnum(c) || c == '_' }

  predicate IsUpper(c: char) { 'A' <= c <= 'Z' }

  function ToLowerChar(c: char): (d: char)
    ensures !IsUpper(d)
    ensures IsAsciiLetter(c) <==> IsAsciiLetter(d)
    ensures IsSpace(c) <==> IsSpace(d)
    ensures IsWordChar(c) <==> IsWordChar(d)
    ensures !IsUpper(c) ==> d == c
  {
    if IsUpper(c) then (c as int + 32) as char else c
  }

  /** `toLowerCase`, restricted to ASCII: every other code point is left as it is. */
  function Lower(s: string): (r: string)
    ensures |r| == |s|
    ensures forall i :: 0 <= i < |s| ==> r[i] == ToLowerChar(s[i])
  {
    seq(|s|, i requires 0 <= i < |s| => ToLowerChar(s[i]))
  }

  predicate IsLower(s: string) { forall i :: 0 <= i < |s| ==> !IsUpper(s[i]) }

  predicate All(s: string, p: char -> bool) { forall i :: 0 <= i < |s| ==> p(s[i]) }

  /** `replace(/[^...]/g, '')`: the characters of `s` that `keep` accepts, in order. */
  function Filter(s: string, keep: char -> bool): (r: string)
    ensures |r| <= |s|
    ensures All(r, keep)
  {
    if s == [] then []
    else (if keep(s[0]) then [s[0]] else []) + Filter(s[1..], keep)
  }

  lemma {:induction false} FilterAppend(s: string, t: string, keep: char -> bool)
    ensures Filter(s + t, keep) == Filter(s, keep) + Filter(t, keep)
  {
    if s != [] {
      assert (s + t)[1..] == s[1..] + t;
      FilterAppend(s[1..], t, keep);
    } else {
      assert s + t == t;
    }
  }

  /** Filtering keeps a string unchanged exactly when every character is kept. */
  lemma {:induction false} FilterIdentity(s: string, keep: char -> bool)
    ensures Filter(s, keep) == s <==> All(s, keep)
  {
    if s != [] {
      FilterIdentity(s[1..], keep);
      if !keep(s[0]) {
        assert |Filter(s, keep)| < |s|;
      }
    }
  }

  /** Filtering with a stronger predicate after a weaker one is filtering with the stronger. */
  lemma {:induction false} FilterTwice(s: string, first: char -> bool, second: char -> bool)
    requires forall c :: second(c) ==> first(c)
    ensures Filter(Filter(s, first), second) == Filter(s, second)
  {
    if s != [] {
      FilterTwice(s[1..], first, second);
      var u := Filter(s, first);
      if first(s[0]) {
        assert u == [s[0]] + Filter(s[1..], first);
        assert u != [] && u[0] == s[0] && u[1..] == Filter(s[1..], first);
        assert Filter(u, second) == (if second(s[0]) then [s[0]] else []) + Filter(u[1..], second);
      } else {
        assert u == Filter(s[1..], first);
      }
    }
  }

  /** Filtering only removes characters, so a class shared by all of them is kept. */
  lemma {:induction false} FilterSub(s: string, keep: char -> bool, p: char -> bool)
    requires All(s, p)
    ensures All(Filter(s, keep), p)
  {
    if s != [] {
      FilterSub(s[1..], keep, p);
    }
  }

  // ----- trimming -----

  /** Leading whitespace removed: a suffix of `s` that is empty or starts with a non-space. */
  function TrimStart(s: string): (r: string)
    ensures |r| <= |s| && r == s[|s| - |r|..]
    ensures r == [] || !IsSpace(r[0])
    ensures forall i :: 0 <= i < |s| - |r| ==> IsSpace(s[i])
  {
    if s != [] && IsSpace(s[0]) then TrimStart(s[1..]) else s
  }

  /** Trailing whitespace removed: a prefix of `s` that is empty or ends with a non-space. */
  function TrimEnd(s: string): (r: string)
    ensures |r| <= |s| && r == s[..|r|]
    ensures r == [] || !IsSpace(r[|r| - 1])
    ensures forall i :: |r| <= i < |s| ==> IsSpace(s[i])
  {
    if s != [] && IsSpace(s[|s| - 1]) then TrimEnd(s[..|s| - 1]) else s
  }

  /** `String.prototype.trim`. */
  function Trim(s: string): (r: string)
  {
    TrimEnd(TrimStart(s))
  }

  predicate Trimmed(s: string) { s == [] || (!IsSpace(s[0]) && !IsSpace(s[|s| - 1])) }

  /** `trim` returns a slice of its input with no whitespace at either end, and what it
      removed on each side was whitespace only. */
  lemma TrimSlice(s: string) returns (a: nat, b: nat)
    ensures a <= b <= |s| && Trim(s) == s[a..b]
    ensures Trimmed(Trim(s))
    ensures forall i :: 0 <= i < a ==> IsSpace(s[i])
    ensures forall i :: b <= i < |s| ==> IsSpace(s[i])
  {
    a, b := TrimIsSlice(s);
    TrimEndsAreSpace(s);
    TrimmedTrim(s);
  }

  lemma TrimIsSlice(s: string) returns (a: nat, b: nat)
    ensures a == |s| - |TrimStart(s)| && b == a + |Trim(s)|
    ensures b <= |s| && Trim(s) == s[a..b]
    ensures forall i :: 0 <= i < a ==> IsSpace(s[i])
  {
    var t := TrimStart(s);
    var e := TrimEnd(t);
    a := |s| - |t|;
    b := a + |e|;
    SliceOfSuffix(s, a, |e|);
  }

  lemma SliceOfSuffix<T>(s: seq<T>, a: nat, k: nat)
    requires a + k <= |s|
    ensures s[a..][..k] == s[a..a + k]
  {
  }

  lemma TrimEndsAreSpace(s: string)
    ensures forall i :: |s| - |TrimStart(s)| + |Trim(s)| <= i < |s| ==> IsSpace(s[i])
  {
    var t := TrimStart(s);
    var a := |s| - |t|;
    assert t == s[a..];
    forall i | a + |Trim(s)| <= i < |s| ensures IsSpace(s[i]) {
      assert s[i] == t[i - a];
    }
  }

  lemma TrimmedTrim(s: string)
    ensures Trimmed(Trim(s))
  {
    var t := TrimStart(s);
    if Trim(s) != [] {
      assert Trim(s)[0] == t[0];
    }
  }

  /** `trim` keeps whatever holds of every character, and keeps single spacing. */
  lemma TrimKeeps(s: string, p: char -> bool)
    ensures Trimmed(Trim(s))
    ensures All(s, p) ==> All(Trim(s), p)
    ensures SingleSpaced(s) ==> SingleSpaced(Trim(s))
  {
    var a, b := TrimSlice(s);
    if SingleSpaced(s) { SingleSpacedSlice(s, a, b); }
  }

  lemma TrimOfTrimmed(s: string)
    requires Trimmed(s)
    ensures Trim(s) == s
  {
  }

  /** `trim` is idempotent. */
  lemma TrimIdempotent(s: string)
    ensures Trim(Trim(s)) == Trim(s)
  {
    var _, _ := TrimSlice(s);
    TrimOfTrimmed(Trim(s));
  }

  /** A string is trimmed to nothing exactly when it is all whitespace. */
  lemma TrimEmpty(s: string)
    ensures Trim(s) == [] <==> All(s, IsSpace)
  {
    var a, b := TrimSlice(s);
    if Trim(s) != [] {
      assert s[a] == Trim(s)[0];
      assert !IsSpace(s[a]);
    }
  }

  // ----- whitespace runs -----

  /** No whitespace other than the plain space, and never two whitespace characters in a row. */
  predicate SingleSpaced(s: string) {
    && (forall i :: 0 <= i < |s| && IsSpace(s[i]) ==> s[i] == ' ')
    && (forall i, j :: 0 <= i < |s| && 0 <= j < |s| && j == i + 1 ==> !(IsSpace(s[i]) && IsSpace(s[j])))
  }

  /** `replace(/\s+/g, ' ')`: each maximal run of whitespace becomes one space. */
  function Collapse(s: string): (r: string)
    ensures (r != [] && IsSpace(r[0])) <==> (s != [] && IsSpace(s[0]))
    ensures |r| <= |s|
    decreases |s|
  {
    if s == [] then []
    else if IsSpace(s[0]) then [' '] + Collapse(TrimStart(s))
    else [s[0]] + Collapse(s[1..])
  }

  /** After collapsing, the only whitespace is single plain spaces. */
  lemma {:induction false} CollapseSingleSpaced(s: string)
    ensures SingleSpaced(Collapse(s))
    decreases |s|
  {
    if s != [] {
      var t := if IsSpace(s[0]) then TrimStart(s) else s[1..];
      CollapseSingleSpaced(t);
      var c, r := Collapse(t), Collapse(s);
      assert r == [if IsSpace(s[0]) then ' ' else s[0]] + c;
      forall i, j | 0 <= i < |r| && 0 <= j < |r| && j == i + 1
        ensures !(IsSpace(r[i]) && IsSpace(r[j]))
      {
        if i > 0 { assert r[i] == c[i - 1] && r[j] == c[j - 1]; }
      }
    }
  }

  /** Collapsing keeps every non-whitespace character, in order. */
  lemma {:induction false} CollapseKeepsText(s: string)
    ensures Filter(Collapse(s), NotSpace) == Filter(s, NotSpace)
    decreases |s|
  {
    if s != [] {
      if IsSpace(s[0]) {
        var t := TrimStart(s);
        var k := |s| - |t|;
        CollapseKeepsText(t);
        FilterAppend([' '], Collapse(t), NotSpace);
        FilterAppend(s[..k], t, NotSpace);
        SliceTwo(s, k);
        forall i | 0 <= i < k ensures !NotSpace(s[..k][i]) {
          assert s[..k][i] == s[i] && IsSpace(s[i]);
        }
        FilterNone(s[..k], NotSpace);
      } else {
        CollapseKeepsText(s[1..]);
        FilterAppend([s[0]], Collapse(s[1..]), NotSpace);
      }
    }
  }

  lemma {:induction false} FilterNone(s: string, keep: char -> bool)
    requires forall i :: 0 <= i < |s| ==> !keep(s[i])
    ensures Filter(s, keep) == []
  {
    if s != [] { FilterNone(s[1..], keep); }
  }

  /** Trimming removes only whitespace, so it does not change which non-space characters
      a string holds, nor their order. */
  lemma FilterTrim(s: string, keep: char -> bool)
    requires forall c :: keep(c) ==> !IsSpace(c)
    ensures Filter(Trim(s), keep) == Filter(s, keep)
  {
    var a, b := TrimSlice(s);
    var x, y, z := s[..a], s[a..b], s[b..];
    SliceThree(s, a, b);
    forall i | 0 <= i < |x| ensures !keep(x[i]) {
      assert x[i] == s[i] && IsSpace(s[i]);
    }
    forall i | 0 <= i < |z| ensures !keep(z[i]) {
      assert z[i] == s[b + i] && IsSpace(s[b + i]);
    }
    FilterDropEnds(x, y, z, keep);
  }

  /** A sequence is its two slices at a cut point, put back together. */
  lemma SliceTwo<T>(s: seq<T>, k: nat)
    requires k <= |s|
    ensures s[..k] + s[k..] == s
  {
  }

  /** A sequence is its three slices at two cut points, put back together. */
  lemma SliceThree<T>(s: seq<T>, a: nat, b: nat)
    requires a <= b <= |s|
    ensures s[..a] + s[a..b] + s[b..] == s
  {
    assert s[..a] + s[a..b] == s[..b];
  }

  lemma FilterDropEnds(x: string, y: string, z: string, keep: char -> bool)
    requires forall i :: 0 <= i < |x| ==> !keep(x[i])
    requires forall i :: 0 <= i < |z| ==> !keep(z[i])
    ensures Filter(x + y + z, keep) == Filter(y, keep)
  {
    FilterAppend(x + y, z, keep);
    FilterAppend(x, y, keep);
    FilterNone(x, keep);
    FilterNone(z, keep);
    assert Filter(y, keep) + [] == Filter(y, keep);
  }

  /** Collapsing introduces no character other than the plain space. */
  lemma {:induction false} CollapseKeepsClass(s: string, p: char -> bool)
    requires All(s, p) && p(' ')
    ensures All(Collapse(s), p)
    decreases |s|
  {
    if s != [] {
      var t := if IsSpace(s[0]) then TrimStart(s) else s[1..];
      CollapseKeepsClass(t, p);
    }
  }

  /** Collapsing leaves an already single-spaced string unchanged. */
  lemma {:induction false} CollapseOfSingleSpaced(s: string)
    requires SingleSpaced(s)
    ensures Collapse(s) == s
    decreases |s|
  {
    if s != [] {
      if IsSpace(s[0]) {
        assert TrimStart(s) == s[1..];
      }
      assert SingleSpaced(s[1..]);
      CollapseOfSingleSpaced(s[1..]);
    }
  }

  lemma SingleSpacedSlice(s: string, a: nat, b: nat)
    requires a <= b <= |s| && SingleSpaced(s)
    ensures SingleSpaced(s[a..b])
  {
    var t := s[a..b];
    forall i, j | 0 <= i && j == i + 1 && j < |t|
      ensures !(IsSpace(t[i]) && IsSpace(t[j]))
    {
      assert t[i] == s[a + i] && t[j] == s[a + j];
    }
  }

  predicate NoSpace(w: string) { forall i :: 0 <= i < |w| ==> !IsSpace(w[i]) }

  /** Collapsing passes a leading whitespace-free word through unchanged. */
  lemma {:induction false} CollapseWordPrefix(w: string, x: string)
    requires NoSpace(w)
    ensures Collapse(w + x) == w + Collapse(x)
    decreases |w|
  {
    if w != [] {
      var c, v := w[0], w[1..];
      assert !IsSpace(c);
      assert NoSpace(v) by {
        forall i | 0 <= i < |v| ensures !IsSpace(v[i]) { assert v[i] == w[i + 1]; }
      }
      ConsAppend(w, x);
      CollapseWordPrefix(v, x);
      assert Collapse(w + x) == [c] + Collapse(v + x);
      ConsAppend(w, Collapse(x));
    } else {
      assert w + x == x;
    }
  }

  /** A nonempty sequence followed by `y` is its head, then its tail followed by `y`. */
  lemma ConsAppend<T>(w: seq<T>, y: seq<T>)
    requires w != []
    ensures (w + y)[0] == w[0] && (w + y)[1..] == w[1..] + y
    ensures [w[0]] + (w[1..] + y) == w + y
  {
    assert w == [w[0]] + w[1..];
  }

  // ----- split and join -----

  /** Length of the leading run of non-whitespace characters. */
  function WordLength(s: string): (n: nat)
    ensures n <= |s|
    ensures NoSpace(s[..n])
    ensures n == |s| || IsSpace(s[n])
  {
    if s == [] || IsSpace(s[0]) then 0 else 1 + WordLength(s[1..])
  }

  /** `s.split(/\s+/)`: the pieces between maximal whitespace runs. Leading or trailing
      whitespace gives an empty first or last piece, and the empty string gives `[""]`. */
  function SplitWs(s: string): (r: seq<string>)
    ensures |r| >= 1
    ensures forall k :: 0 <= k < |r| ==> NoSpace(r[k])
    decreases |s|
  {
    var n := WordLength(s);
    if n == |s| then [s]
    else [s[..n]] + SplitWs(TrimStart(s[n..]))
  }

  /** `words.join(' ')`. */
  function JoinSpace(ws: seq<string>): string
  {
    if ws == [] then []
    else if |ws| == 1 then ws[0]
    else ws[0] + " " + JoinSpace(ws[1..])
  }

  /** Splitting on whitespace runs and joining with single spaces is the same as collapsing
      every whitespace run to one space: `split` loses exactly the shape of the runs. */
  lemma {:induction false} JoinSplit(s: string)
    ensures JoinSpace(SplitWs(s)) == Collapse(s)
    decreases |s|
  {
    var n := WordLength(s);
    if n == |s| {
      assert SplitWs(s) == [s];
      CollapseWordPrefix(s, []);
      assert s + [] == s;
    } else {
      var t := TrimStart(s[n..]);
      JoinSplit(t);
      CollapseAtFirstSpace(s, n, t);
      SplitAtFirstSpace(s, n, t);
    }
  }

  lemma CollapseAtFirstSpace(s: string, n: nat, t: string)
    requires n == WordLength(s) < |s| && t == TrimStart(s[n..])
    ensures Collapse(s) == s[..n] + " " + Collapse(t)
  {
    CollapseAfterWord(s, n);
    CollapseLeadingSpace(s[n..]);
    SpaceBetween(s[..n], Collapse(t));
  }

  lemma SpaceBetween(a: string, b: string)
    ensures a + ([' '] + b) == a + " " + b
  {
  }

  lemma CollapseAfterWord(s: string, n: nat)
    requires n < |s| && NoSpace(s[..n])
    ensures Collapse(s) == s[..n] + Collapse(s[n..])
  {
    CollapseWordPrefix(s[..n], s[n..]);
    assert s[..n] + s[n..] == s;
  }

  lemma CollapseLeadingSpace(s: string)
    requires s != [] && IsSpace(s[0])
    ensures Collapse(s) == [' '] + Collapse(TrimStart(s))
  {
  }

  lemma SplitAtFirstSpace(s: string, n: nat, t: string)
    requires n == WordLength(s) < |s| && t == TrimStart(s[n..])
    ensures JoinSpace(SplitWs(s)) == s[..n] + " " + JoinSpace(SplitWs(t))
  {
    var w := s[..n];
    var pieces := SplitWs(t);
    assert SplitWs(s) == [w] + pieces;
    assert ([w] + pieces)[1..] == pieces;
  }

  /** A trimmed nonempty string splits into nonempty pieces only. */
  lemma {:induction false} SplitTrimmedPieces(s: string)
    requires Trimmed(s) && s != []
    ensures forall k :: 0 <= k < |SplitWs(s)| ==> SplitWs(s)[k] != []
    decreases |s|
  {
    var n := WordLength(s);
    if n < |s| {
      var u := s[n..];
      var t := TrimStart(u);
      assert u[|u| - 1] == s[|s| - 1];
      assert !IsSpace(u[|u| - 1]);
      assert t[|t| - 1] == u[|u| - 1];
      assert Trimmed(t);
      SplitTrimmedPieces(t);
    }
  }

  // ----- words -----

  /** The whitespace-separated words of `s`: its maximal runs of non-whitespace
      characters, in order. */
  function Words(s: string): (r: seq<string>)
    ensures forall k :: 0 <= k < |r| ==> r[k] != [] && NoSpace(r[k])
    decreases |s|
  {
    var t := TrimStart(s);
    if t == [] then []
    else
      var n := WordLength(t);
      var rest := Words(t[n..]);
      ConsWord(t[..n], rest);
      [t[..n]] + rest
  }

  lemma ConsWord(w: string, rest: seq<string>)
    requires w != [] && NoSpace(w)
    requires forall k :: 0 <= k < |rest| ==> rest[k] != [] && NoSpace(rest[k])
    ensures forall k :: 0 <= k < |[w] + rest| ==> ([w] + rest)[k] != [] && NoSpace(([w] + rest)[k])
  {
  }

  /** The pieces that are not empty, in order. */
  function NonEmpty(pieces: seq<string>): seq<string>
  {
    if pieces == [] then []
    else (if pieces[0] == [] then [] else [pieces[0]]) + NonEmpty(pieces[1..])
  }

  /** Leading whitespace does not change the words. */
  lemma WordsTrimStart(s: string)
    ensures Words(TrimStart(s)) == Words(s)
  {
    var t := TrimStart(s);
    assert TrimStart(t) == t;
  }

  /** The words of a string that starts with a word: that word, then the words of the rest. */
  lemma WordsAtWord(s: string)
    requires s != [] && !IsSpace(s[0])
    ensures Words(s) == [s[..WordLength(s)]] + Words(s[WordLength(s)..])
  {
    assert TrimStart(s) == s;
  }

  /** The words are exactly the nonempty pieces of `split(/\s+/)`. */
  lemma {:induction false} WordsAreNonEmptyPieces(s: string)
    ensures Words(s) == NonEmpty(SplitWs(s))
    decreases |s|
  {
    var n := WordLength(s);
    if n == |s| {
      assert SplitWs(s) == [s];
      assert NonEmpty([s]) == (if s == [] then [] else [s]) + NonEmpty([]);
      if s != [] {
        WordsAtWord(s);
        assert s[..n] == s && s[n..] == [];
      }
    } else {
      var t := TrimStart(s[n..]);
      WordsAreNonEmptyPieces(t);
      var pieces := SplitWs(t);
      assert SplitWs(s) == [s[..n]] + pieces;
      assert ([s[..n]] + pieces)[1..] == pieces;
      WordsTrimStart(s[n..]);
      if n == 0 {
        assert s[n..] == s;
        assert NonEmpty(SplitWs(s)) == NonEmpty(pieces);
      } else {
        WordsAtWord(s);
        assert NonEmpty(SplitWs(s)) == [s[..n]] + NonEmpty(pieces);
      }
    }
  }

  /** Collapsing then trimming keeps exactly the words, the nonempty pieces of `split`, and
      splitting the outcome, when it is not empty, gives them back. */
  lemma TrimCollapseWords(s: string)
    ensures Trim(Collapse(s)) == JoinSpace(Words(s))
    ensures Words(s) == NonEmpty(SplitWs(s))
    ensures Trim(Collapse(s)) != [] ==> SplitWs(Trim(Collapse(s))) == Words(s)
  {
    TrimCollapse(s);
    WordsAreNonEmptyPieces(s);
    if Words(s) != [] {
      SplitJoinSpace(Words(s));
    }
  }

  /** Trimming the collapsed string leaves its words joined by single spaces. */
  lemma {:induction false} TrimCollapse(s: string)
    ensures Trim(Collapse(s)) == JoinSpace(Words(s))
    decreases |s|
  {
    if s == [] {
    } else if IsSpace(s[0]) {
      var t := TrimStart(s);
      TrimCollapse(t);
      WordsTrimStart(s);
      TrimLeadingSpace(Collapse(t));
    } else {
      var n := WordLength(s);
      if n == |s| {
        TrimCollapseLastWord(s);
      } else {
        var v := TrimStart(s[n..]);
        TrimCollapse(v);
        TrimCollapseFirstWord(s, n, v);
      }
    }
  }

  /** A string that is one word collapses and trims to that word, its only word. */
  lemma TrimCollapseLastWord(s: string)
    requires s != [] && !IsSpace(s[0]) && WordLength(s) == |s|
    ensures Trim(Collapse(s)) == JoinSpace(Words(s))
  {
    OneWord(s);
    TrimCollapseWord(s);
  }

  lemma OneWord(s: string)
    requires s != [] && !IsSpace(s[0]) && WordLength(s) == |s|
    ensures NoSpace(s) && Words(s) == [s]
  {
    var n := WordLength(s);
    WordsAtWord(s);
    WholeSlice(s, n);
  }

  lemma WholeSlice<T>(s: seq<T>, n: nat)
    requires n == |s|
    ensures s[..n] == s && s[n..] == []
  {
  }

  /** A string that starts with a word followed by whitespace: that word, a space, and the
      rest, given the rest already satisfies the claim. */
  lemma TrimCollapseFirstWord(s: string, n: nat, v: string)
    requires s != [] && !IsSpace(s[0]) && n == WordLength(s) < |s| && v == TrimStart(s[n..])
    requires Trim(Collapse(v)) == JoinSpace(Words(v))
    ensures Trim(Collapse(s)) == JoinSpace(Words(s))
  {
    var w := s[..n];
    FirstWordSplit(s, n, v);
    if v == [] {
      TrimWordSpace(w);
      assert [w] + [] == [w];
    } else {
      RestStartsWithWord(v);
      TrimCollapseStep(w, Collapse(v), Words(v));
    }
  }

  /** Both the words and the collapsed form of such a string begin with its first word. */
  lemma FirstWordSplit(s: string, n: nat, v: string)
    requires s != [] && !IsSpace(s[0]) && n == WordLength(s) < |s| && v == TrimStart(s[n..])
    ensures s[..n] != [] && !IsSpace(s[..n][0]) && NoSpace(s[..n])
    ensures Words(s) == [s[..n]] + Words(v)
    ensures Collapse(s) == s[..n] + ([' '] + Collapse(v))
  {
    var u := s[n..];
    WordsAtWord(s);
    WordsTrimStart(u);
    CollapseAfterWord(s, n);
    CollapseLeadingSpace(u);
  }

  /** A string without leading whitespace, if not empty, has a first word, and its collapsed
      form starts with a non-space. */
  lemma RestStartsWithWord(v: string)
    requires v != [] && !IsSpace(v[0])
    ensures Words(v) != [] && Collapse(v) != [] && !IsSpace(Collapse(v)[0])
  {
    assert TrimStart(v) == v;
  }

  /** A single word collapses and trims to itself. */
  lemma TrimCollapseWord(w: string)
    requires w != [] && NoSpace(w)
    ensures Trim(Collapse(w)) == w
  {
    CollapseWordPrefix(w, []);
    assert w + [] == w;
    assert Trimmed(w);
    TrimOfTrimmed(w);
  }

  /** One word, one space, then a collapsed rest that starts with a word. */
  lemma TrimCollapseStep(w: string, c: string, words: seq<string>)
    requires w != [] && !IsSpace(w[0]) && c != [] && !IsSpace(c[0])
    requires words != [] && Trim(c) == JoinSpace(words)
    ensures Trim(w + ([' '] + c)) == JoinSpace([w] + words)
  {
    SpaceBetween(w, c);
    TrimAfterWord(w, c);
    JoinSpaceCons(w, words);
  }

  lemma TrimLeadingSpace(x: string)
    ensures Trim([' '] + x) == Trim(x)
  {
    assert ([' '] + x)[1..] == x;
  }

  lemma JoinSpaceCons(w: string, ws: seq<string>)
    requires ws != []
    ensures JoinSpace([w] + ws) == w + " " + JoinSpace(ws)
  {
    assert ([w] + ws)[1..] == ws;
  }

  /** A word followed by one space trims to the word. */
  lemma TrimWordSpace(w: string)
    requires w != [] && NoSpace(w)
    ensures Trim(w + ([' '] + [])) == w
  {
    var x := w + [' '];
    assert w + ([' '] + []) == x;
    assert TrimStart(x) == x;
    assert x[..|x| - 1] == w;
    assert Trimmed(w);
    assert TrimEnd(w) == w;
  }

  /** Trimming a word, a space and a string that starts with a word trims only that string. */
  lemma TrimAfterWord(w: string, c: string)
    requires w != [] && !IsSpace(w[0]) && c != [] && !IsSpace(c[0])
    ensures Trim(w + " " + c) == w + " " + Trim(c)
  {
    var p := w + " ";
    assert (p + c)[0] == w[0];
    assert TrimStart(p + c) == p + c;
    assert TrimStart(c) == c;
    TrimEndAppend(p, c);
  }

  lemma {:induction false} TrimEndAppend(p: string, c: string)
    requires c != [] && !IsSpace(c[0])
    ensures TrimEnd(p + c) == p + TrimEnd(c)
    decreases |c|
  {
    var x := p + c;
    if IsSpace(c[|c| - 1]) {
      var c' := c[..|c| - 1];
      assert x[..|x| - 1] == p + c';
      TrimEndAppend(p, c');
    }
  }

  /** Splitting single-spaced words gives them back. */
  lemma {:induction false} SplitJoinSpace(ws: seq<string>)
    requires ws != [] && forall k :: 0 <= k < |ws| ==> ws[k] != [] && NoSpace(ws[k])
    ensures SplitWs(JoinSpace(ws)) == ws
    decreases |ws|
  {
    var w := ws[0];
    if |ws| == 1 {
      SplitOneWord(w);
    } else {
      var rest := ws[1..];
      SplitJoinSpace(rest);
      JoinSpaceStart(rest);
      JoinSpaceCons(w, rest);
      SpaceBetween(w, JoinSpace(rest));
      assert ws == [w] + rest;
      SplitWordThen(w, JoinSpace(rest));
    }
  }

  lemma SplitOneWord(w: string)
    requires NoSpace(w)
    ensures SplitWs(w) == [w]
  {
    WordLengthOfWord(w, []);
    AppendEmpty(w);
  }

  /** A word, one space, then a string starting with a word: the word is the first piece. */
  lemma SplitWordThen(w: string, j: string)
    requires NoSpace(w) && j != [] && !IsSpace(j[0])
    ensures SplitWs(w + ([' '] + j)) == [w] + SplitWs(j)
  {
    var x := [' '] + j;
    WordLengthOfWord(w, x);
    AppendSlices(w, x);
    assert x[1..] == j;
    assert TrimStart(j) == j;
  }

  lemma AppendEmpty<T>(s: seq<T>)
    ensures s + [] == s
  {
  }

  lemma AppendSlices<T>(a: seq<T>, b: seq<T>)
    ensures (a + b)[..|a|] == a && (a + b)[|a|..] == b && |a + b| == |a| + |b|
  {
  }

  /** A joined list of words starts with the first word. */
  lemma JoinSpaceStart(ws: seq<string>)
    requires ws != [] && ws[0] != []
    ensures JoinSpace(ws) != [] && JoinSpace(ws)[0] == ws[0][0]
  {
  }

  lemma {:induction false} WordLengthOfWord(w: string, x: string)
    requires NoSpace(w) && (x == [] || IsSpace(x[0]))
    ensures WordLength(w + x) == |w|
    decreases |w|
  {
    if w != [] {
      ConsAppend(w, x);
      assert NoSpace(w[1..]) by {
        forall i | 0 <= i < |w| - 1 ensures !IsSpace(w[1..][i]) { assert w[1..][i] == w[i + 1]; }
      }
      WordLengthOfWord(w[1..], x);
    } else {
      assert w + x == x;
    }
  }

  /** `s.includes(sub)`. */
  predicate Contains(s: string, sub: string) {
    exists i :: 0 <= i <= |s| && sub <= s[i..]
  }

  /** A substring of a string of class `p` is of class `p`. */
  lemma ContainsAll(s: string, sub: string, p: char -> bool)
    requires All(s, p) && Contains(s, sub)
    ensures All(sub, p)
  {
    var i :| 0 <= i <= |s| && sub <= s[i..];
    forall k | 0 <= k < |sub| ensures p(sub[k]) {
      assert sub[k] == s[i..][k] == s[i + k];
    }
  }

  lemma ContainsEmpty(s: string)
    ensures Contains(s, [])
  {
    assert [] <= s[0..];
  }

  lemma ContainsSelf(s: string)
    ensures Contains(s, s)
  {
    assert s <= s[0..];
  }

  // ----- lines -----

  /** `s.split('\n')`: the pieces between line feeds, at least one, none holding a line feed. */
  function SplitLines(s: string): (r: seq<string>)
    ensures |r| >= 1
    ensures forall k :: 0 <= k < |r| ==> '\n' !in r[k]
  {
    if s == [] then [""]
    else
      var init, c := SplitLines(s[..|s| - 1]), s[|s| - 1];
      if c == '\n' then init + [""]
      else init[..|init| - 1] + [init[|init| - 1] + [c]]
  }

  /** `lines.join('\n')`. */
  function JoinLines(lines: seq<string>): string
    requires |lines| >= 1
  {
    if |lines| == 1 then lines[0]
    else JoinLines(lines[..|lines| - 1]) + "\n" + lines[|lines| - 1]
  }

  /** Appending to the last line appends to the joined text. */
  lemma JoinLinesExtendLast(lines: seq<string>, t: string)
    requires |lines| >= 1
    ensures JoinLines(lines[..|lines| - 1] + [lines[|lines| - 1] + t]) == JoinLines(lines) + t
  {
    var n := |lines| - 1;
    var ext := lines[..n] + [lines[n] + t];
    if n > 0 {
      assert ext[..n] == lines[..n];
    }
  }

  /** Joining the pieces with line feeds gives the text back: nothing is lost by the split. */
  lemma {:induction false} JoinSplitLines(s: string)
    ensures JoinLines(SplitLines(s)) == s
  {
    if s != [] {
      var n := |s| - 1;
      var init, c := SplitLines(s[..n]), s[n];
      JoinSplitLines(s[..n]);
      assert JoinLines(init) == s[..n];
      if c == '\n' {
        var lines := init + [""];
        assert SplitLines(s) == lines;
        assert lines[..|init|] == init;
        assert JoinLines(lines) == s[..n] + "\n" + "";
      } else {
        assert SplitLines(s) == init[..|init| - 1] + [init[|init| - 1] + [c]];
        JoinLinesExtendLast(init, [c]);
      }
      SnocLast(s);
    }
  }

  /** A nonempty sequence is its front followed by its last element. */
  lemma SnocLast<T>(s: seq<T>)
    requires s != []
    ensures s[..|s| - 1] + [s[|s| - 1]] == s
  {
  }
}
