/**
 The string operations the sources share, on sequences of characters: where a character or a
 text is first found, what follows it, the words between whitespace, and trimming.

 Each is the plain recursion over the first character that the library function behaves as. The
 lemmas say how an operation on a text put together from parts follows from the same operation
 on the parts: a pattern without the character between two parts cannot straddle it, text
 further on does not change where a pattern is first found, and a word followed by whitespace is
 the first word.
 */
module Text {
  import opened Wrappers

  /** Unicode `White_Space`. */
  predicate IsWhitespace(c: char) {
    || '\t' <= c <= '\r' || c == ' ' || c == '\U{0085}' || c == '\U{00A0}' || c == '\U{1680}'
    || '\U{2000}' <= c <= '\U{200A}' || c == '\U{2028}' || c == '\U{2029}' || c == '\U{202F}'
    || c == '\U{205F}' || c == '\U{3000}'
  }

  predicate NoWhitespace(s: string) {
    forall i :: 0 <= i < |s| ==> !IsWhitespace(s[i])
  }

  /** The first index of `c` in `s`, or `|s|`. */
  function IndexOf(s: string, c: char): (k: nat)
    ensures k <= |s|
    ensures k < |s| ==> s[k] == c
    ensures forall i :: 0 <= i < k ==> s[i] != c
  {
    if s == "" || s[0] == c then 0 else 1 + IndexOf(s[1..], c)
  }

  lemma IndexOfUnique(s: string, c: char, k: nat)
    requires k < |s| && s[k] == c && forall i :: 0 <= i < k ==> s[i] != c
    ensures IndexOf(s, c) == k
  {
  }

  /** The first index at which `pat` occurs in `s`. */
  function Find(s: string, pat: string): (r: Option<nat>)
    ensures r.Some? ==> r.value + |pat| <= |s|
  {
    if pat <= s then Some(0)
    else if s == "" then None
    else
      match Find(s[1..], pat)
      case None => None
      case Some(k) => Some(k + 1)
  }

  /** A pattern without `sep` cannot straddle a `sep`. */
  lemma NotAcross(w: string, sep: char, rest: string, pat: string)
    requires pat != "" && sep !in pat && !(pat <= w)
    ensures !(pat <= w + [sep] + rest)
  {
    var s := w + [sep] + rest;
    assert s[|w|] == sep;
  }

  lemma {:induction false} FindPastWord(w: string, sep: char, rest: string, pat: string)
    requires pat != "" && sep !in pat && Find(w, pat).None?
    ensures Find(w + [sep] + rest, pat) ==
            match Find(rest, pat) case None => None case Some(k) => Some(|w| + 1 + k)
  {
    var s := w + [sep] + rest;
    NotAcross(w, sep, rest, pat);
    if w == "" {
      assert s[1..] == rest;
    } else {
      assert s[1..] == w[1..] + [sep] + rest;
      FindPastWord(w[1..], sep, rest, pat);
    }
  }

  /** Text further on does not change where `pat` is first found. */
  lemma {:induction false} FindInFront(w: string, more: string, pat: string)
    requires pat != "" && Find(w, pat).Some?
    ensures Find(w + more, pat) == Find(w, pat)
  {
    if pat <= w {
      assert pat <= w + more;
    } else {
      assert (w + more)[..|pat|] == w[..|pat|];
      assert (w + more)[1..] == w[1..] + more;
      FindInFront(w[1..], more, pat);
    }
  }

  /** What follows the first `pat` in `s`. */
  function After(s: string, pat: string): Option<string> {
    match Find(s, pat)
    case None => None
    case Some(k) => Some(s[k + |pat|..])
  }

  lemma AfterPastWord(w: string, sep: char, rest: string, pat: string)
    requires pat != "" && sep !in pat && Find(w, pat).None?
    ensures After(w + [sep] + rest, pat) == After(rest, pat)
  {
    FindPastWord(w, sep, rest, pat);
    match Find(rest, pat)
    case None =>
    case Some(k) => DropPast(w + [sep], rest, k + |pat|);
  }

  lemma AfterInFront(w: string, more: string, pat: string)
    requires pat != "" && After(w, pat).Some?
    ensures After(w + more, pat) == Some(After(w, pat).value + more)
  {
    FindInFront(w, more, pat);
    var k := Find(w, pat).value + |pat|;
    assert (w + more)[k..] == w[k..] + more;
  }

  lemma DropPast(a: string, b: string, k: nat)
    requires k <= |b|
    ensures (a + b)[|a| + k..] == b[k..]
  {
  }

  /** The length of the word `s` starts with. */
  function WordLength(s: string): (k: nat)
    ensures k <= |s|
    ensures NoWhitespace(s[..k])
    ensures k < |s| ==> IsWhitespace(s[k])
  {
    if s == "" || IsWhitespace(s[0]) then 0 else
      var k := WordLength(s[1..]) + 1;
      assert s[..k] == [s[0]] + s[1..][..k - 1];
      k
  }

  /** `split_whitespace`: the maximal runs without whitespace. */
  function Words(s: string): (words: seq<string>)
    ensures forall w :: w in words ==> w != "" && NoWhitespace(w)
  {
    if s == "" then []
    else if IsWhitespace(s[0]) then Words(s[1..])
    else
      var k := WordLength(s);
      [s[..k]] + Words(s[k..])
  }

  lemma {:induction false} WordLengthOf(w: string, rest: string)
    requires NoWhitespace(w) && (rest == "" || IsWhitespace(rest[0]))
    ensures WordLength(w + rest) == |w|
  {
    if w == "" {
      assert w + rest == rest;
    } else {
      assert (w + rest)[1..] == w[1..] + rest;
      WordLengthOf(w[1..], rest);
    }
  }

  lemma WordsOf(w: string, rest: string)
    requires w != "" && NoWhitespace(w) && (rest == "" || IsWhitespace(rest[0]))
    ensures Words(w + rest) == [w] + Words(rest)
  {
    WordLengthOf(w, rest);
    assert (w + rest)[..|w|] == w && (w + rest)[|w|..] == rest;
  }

  /** Two texts with a space between. */
  function Spaced(a: string, b: string): string {
    a + [' '] + b
  }

  lemma WordsSpaced(w: string, rest: string)
    requires w != "" && NoWhitespace(w)
    ensures Words(Spaced(w, rest)) == [w] + Words(rest)
  {
    var tail := [' '] + rest;
    assert Spaced(w, rest) == w + tail;
    WordsOf(w, tail);
    assert tail[1..] == rest;
  }

  /** `trim`. */
  function TrimStart(s: string): string {
    if s != "" && IsWhitespace(s[0]) then TrimStart(s[1..]) else s
  }

  function TrimEnd(s: string): string {
    if s != "" && IsWhitespace(s[|s| - 1]) then TrimEnd(s[..|s| - 1]) else s
  }

  function Trim(s: string): string {
    TrimEnd(TrimStart(s))
  }
}
