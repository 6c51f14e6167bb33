/** Character-level string helpers with the ASCII model of the platform's
    text routines: uppercasing, trimming `.whitespaces`, and splitting on a
    space with empty pieces dropped. */
module Text {

  /** ASCII uppercasing of one character; every other character is kept. */
  function UpperChar(c: char): char
  {
    if 'a' <= c <= 'z' then (c as int - 32) as char else c
  }

  function Upper(s: string): (r: string)
    ensures |r| == |s|
    ensures forall i :: 0 <= i < |s| ==> r[i] == UpperChar(s[i])
  {
    seq(|s|, i requires 0 <= i < |s| => UpperChar(s[i]))
  }

  /** An uppercased string has no lowercase ASCII letter, so uppercasing
      twice changes nothing more. */
  lemma UpperIdempotent(s: string)
    ensures forall i :: 0 <= i < |s| ==> !('a' <= Upper(s)[i] <= 'z')
    ensures Upper(Upper(s)) == Upper(s)
  {
  }

  /** Uppercasing commutes with taking a prefix. */
  lemma UpperPrefix(s: string, n: nat)
    requires n <= |s|
    ensures Upper(s[..n]) == Upper(s)[..n]
  {
  }

  /** `CharacterSet.whitespaces`: tab and the Unicode space separators. */
  predicate IsWhitespace(c: char)
  {
    || c == '\t' || c == ' ' || c == '\U{00A0}' || c == '\U{1680}'
    || ('\U{2000}' <= c <= '\U{200A}')
    || c == '\U{202F}' || c == '\U{205F}' || c == '\U{3000}'
  }

  ghost predicate AllWhitespace(s: string)
  {
    forall k :: 0 <= k < |s| ==> IsWhitespace(s[k])
  }

  function TrimLeading(s: string): (r: string)
    ensures |r| <= |s| && r == s[|s| - |r|..]
    ensures AllWhitespace(s[..|s| - |r|])
    ensures r == [] || !IsWhitespace(r[0])
  {
    if s != [] && IsWhitespace(s[0]) then TrimLeading(s[1..]) else s
  }

  function TrimTrailing(s: string): (r: string)
    ensures |r| <= |s| && r == s[..|r|]
    ensures AllWhitespace(s[|r|..])
    ensures r == [] || !IsWhitespace(r[|r| - 1])
  {
    if s != [] && IsWhitespace(s[|s| - 1]) then TrimTrailing(s[..|s| - 1]) else s
  }

  /** `trimmingCharacters(in: .whitespaces)`: `s` without whitespace at
      either end. */
  function Trim(s: string): (r: string)
    ensures |r| <= |s|
    ensures r == [] || (!IsWhitespace(r[0]) && !IsWhitespace(r[|r| - 1]))
  {
    TrimTrailing(TrimLeading(s))
  }

  /** The trimmed string is a slice of `s`, and only whitespace was cut off
      either end. */
  lemma TrimIsSlice(s: string)
    ensures exists i, j :: 0 <= i <= j <= |s| && Trim(s) == s[i..j]
                           && AllWhitespace(s[..i]) && AllWhitespace(s[j..])
  {
    var lead := TrimLeading(s);
    var r := TrimTrailing(lead);
    var i := |s| - |lead|;
    var j := i + |r|;
    assert r == s[i..j];
    assert s[j..] == lead[|r|..];
    assert AllWhitespace(s[..i]) && AllWhitespace(s[j..]);
  }

  /** Trimming yields the empty string exactly when the string is all whitespace. */
  lemma TrimEmptyIffBlank(s: string)
    ensures Trim(s) == [] <==> AllWhitespace(s)
  {
    TrimIsSlice(s);
    var i, j :| 0 <= i <= j <= |s| && Trim(s) == s[i..j]
                && AllWhitespace(s[..i]) && AllWhitespace(s[j..]);
    if Trim(s) == [] {
      forall k | 0 <= k < |s|
        ensures IsWhitespace(s[k])
      {
        if k < i { assert s[..i][k] == s[k]; } else { assert s[j..][k - j] == s[k]; }
      }
    }
  }

  /** Length of the leading run of non-space characters. */
  function WordLength(s: string): (n: nat)
    ensures n <= |s|
    ensures forall k :: 0 <= k < n ==> s[k] != ' '
    ensures n == |s| || s[n] == ' '
  {
    if s == [] || s[0] == ' ' then 0 else 1 + WordLength(s[1..])
  }

  /** `split(separator: " ")`: the maximal runs of non-space characters, in
      order; empty pieces are omitted. */
  function SplitSpaces(s: string): (parts: seq<string>)
    ensures forall k :: 0 <= k < |parts| ==> |parts[k]| > 0 && ' ' !in parts[k]
    decreases |s|
  {
    if s == [] then []
    else if s[0] == ' ' then SplitSpaces(s[1..])
    else
      var n := WordLength(s);
      [s[..n]] + SplitSpaces(s[n..])
  }

  /** A space-free word followed by the end or a space is one whole run. */
  lemma {:induction false} WordLengthOfWord(w: string, t: string)
    requires ' ' !in w && (t == [] || t[0] == ' ')
    ensures WordLength(w + t) == |w|
    decreases |w|
  {
    if w != [] {
      assert (w + t)[1..] == w[1..] + t;
      WordLengthOfWord(w[1..], t);
    } else {
      assert w + t == t;
    }
  }

  /** A space is only a separator: leading spaces add no parts. */
  lemma SplitSpacesSkipsSpace(s: string)
    ensures SplitSpaces([' '] + s) == SplitSpaces(s)
  {
    assert ([' '] + s)[1..] == s;
  }

  /** The parts are the maximal words: a non-empty space-free word that
      runs up to a space (or the end) comes out whole, as one part, ahead of
      the parts of what follows. */
  lemma SplitSpacesWords(w: string, s: string)
    requires w != [] && ' ' !in w
    ensures SplitSpaces(w) == [w]
    ensures SplitSpaces(w + [' '] + s) == [w] + SplitSpaces(s)
  {
    WordLengthOfWord(w, []);
    assert w + [] == w;
    assert w[|w|..] == [];
    var t := [' '] + s;
    assert w + [' '] + s == w + t;
    WordLengthOfWord(w, t);
    assert (w + t)[..|w|] == w;
    assert (w + t)[|w|..] == t;
    SplitSpacesSkipsSpace(s);
  }

  function RemoveSpaces(s: string): string
  {
    if s == [] then [] else (if s[0] == ' ' then [] else [s[0]]) + RemoveSpaces(s[1..])
  }

  function Concat(parts: seq<string>): string
  {
    if parts == [] then [] else parts[0] + Concat(parts[1..])
  }

  lemma {:induction false} RemoveSpacesAppend(a: string, b: string)
    ensures RemoveSpaces(a + b) == RemoveSpaces(a) + RemoveSpaces(b)
    decreases |a|
  {
    if a == [] {
      assert a + b == b;
    } else {
      assert (a + b)[0] == a[0];
      assert (a + b)[1..] == a[1..] + b;
      RemoveSpacesAppend(a[1..], b);
    }
  }

  lemma {:induction false} RemoveSpacesOfWord(w: string)
    requires ' ' !in w
    ensures RemoveSpaces(w) == w
    decreases |w|
  {
    if w != [] {
      RemoveSpacesOfWord(w[1..]);
    }
  }

  /** Splitting loses exactly the spaces: gluing the parts back together
      gives the string without its spaces. */
  lemma {:induction false} SplitSpacesConcat(s: string)
    ensures Concat(SplitSpaces(s)) == RemoveSpaces(s)
    decreases |s|
  {
    if s != [] {
      if s[0] == ' ' {
        SplitSpacesConcat(s[1..]);
      } else {
        var n := WordLength(s);
        SplitSpacesConcat(s[n..]);
        assert s == s[..n] + s[n..];
        RemoveSpacesAppend(s[..n], s[n..]);
        RemoveSpacesOfWord(s[..n]);
        var parts := SplitSpaces(s);
        assert parts[1..] == SplitSpaces(s[n..]);
      }
    }
  }

  /** Index of the first non-space character, or |s| if there is none. */
  function FirstNonSpace(s: string): (i: nat)
    ensures i <= |s|
    ensures forall k :: 0 <= k < i ==> s[k] == ' '
    ensures i == |s| || s[i] != ' '
  {
    if s == [] || s[0] != ' ' then 0 else 1 + FirstNonSpace(s[1..])
  }

  /** The first part starts at the first non-space character, and there is
      a part exactly when the string holds a non-space character. */
  lemma {:induction false} SplitSpacesFirst(s: string)
    ensures |SplitSpaces(s)| > 0 <==> FirstNonSpace(s) < |s|
    ensures |SplitSpaces(s)| > 0 ==> SplitSpaces(s)[0][0] == s[FirstNonSpace(s)]
    decreases |s|
  {
    if s != [] && s[0] == ' ' {
      SplitSpacesFirst(s[1..]);
    }
  }
}
