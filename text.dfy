/**
  String primitives the components rely on, modelled after the ECMAScript
  built-ins they call: `String.prototype.trim`, `startsWith`, `includes`,
  `split(" ")`, `charAt(0)`, `join("")` (as `FirstLetters`) and `toUpperCase`
  (ASCII letters only). `Join` with a one-character separator is not called by
  the components; it is the inverse that pins down what `split` returns.
 */
module Text {

  /** The code points `trim` removes: ECMAScript WhiteSpace and LineTerminator. */
  predicate IsWhitespace(c: char) {
    || c == '\t' || c == '\n' || c == '\U{000B}' || c == '\U{000C}' || c == '\r'
    || c == ' ' || c == '\U{00A0}' || c == '\U{1680}'
    || ('\U{2000}' <= c <= '\U{200A}')
    || c == '\U{2028}' || c == '\U{2029}' || c == '\U{202F}' || c == '\U{205F}'
    || c == '\U{3000}' || c == '\U{FEFF}'
  }

  /** Every character of `s` is whitespace (vacuously true of ""). */
  predicate IsBlank(s: string) {
    forall i :: 0 <= i < |s| ==> IsWhitespace(s[i])
  }

  /** Drops leading whitespace: the result is the suffix of `s` after its longest blank prefix. */
  function TrimStart(s: string): (r: string)
    ensures |r| <= |s| && r == s[|s| - |r|..]
    ensures IsBlank(s[..|s| - |r|])
    ensures r != [] ==> !IsWhitespace(r[0])
    decreases |s|
  {
    if s != [] && IsWhitespace(s[0]) then
      var r := TrimStart(s[1..]);
      TrimStartStep(s, r);
      r
    else s
  }

  /** A suffix of `s[1..]` after a blank prefix is, for a whitespace `s[0]`, a suffix of `s`
      after a blank prefix one longer. */
  lemma TrimStartStep(s: string, r: string)
    requires s != [] && IsWhitespace(s[0])
    requires |r| <= |s| - 1 && r == s[1..][|s| - 1 - |r|..] && IsBlank(s[1..][..|s| - 1 - |r|])
    ensures r == s[|s| - |r|..]
    ensures IsBlank(s[..|s| - |r|])
  {
    var grown, blank := s[..|s| - |r|], s[1..][..|s| - 1 - |r|];
    assert forall i :: 1 <= i < |grown| ==> grown[i] == blank[i - 1];
  }

  /** Drops trailing whitespace: the result is the prefix of `s` before its longest blank suffix. */
  function TrimEnd(s: string): (r: string)
    ensures |r| <= |s| && r == s[..|r|]
    ensures IsBlank(s[|r|..])
    ensures r != [] ==> !IsWhitespace(r[|r| - 1])
    decreases |s|
  {
    if s != [] && IsWhitespace(s[|s| - 1]) then
      var r := TrimEnd(s[..|s| - 1]);
      TrimEndStep(s, r);
      r
    else s
  }

  /** A prefix of `s[..|s| - 1]` before a blank suffix is, for a whitespace last character,
      a prefix of `s` before a blank suffix one longer. */
  lemma TrimEndStep(s: string, r: string)
    requires s != [] && IsWhitespace(s[|s| - 1])
    requires |r| <= |s| - 1 && r == s[..|s| - 1][..|r|] && IsBlank(s[..|s| - 1][|r|..])
    ensures r == s[..|r|]
    ensures IsBlank(s[|r|..])
  {
    var grown, blank := s[|r|..], s[..|s| - 1][|r|..];
    assert forall i :: 0 <= i < |blank| ==> grown[i] == blank[i];
  }

  /** `s.trim()`: no longer than `s`, and neither starts nor ends with whitespace (what it
      cuts off is described by `TrimStart` and `TrimEnd`). */
  function Trim(s: string): (r: string)
    ensures |r| <= |s|
    ensures r != [] ==> !IsWhitespace(r[0]) && !IsWhitespace(r[|r| - 1])
  {
    var t := TrimStart(s);
    var r := TrimEnd(t);
    assert r != [] ==> r[0] == t[0];
    r
  }

  /** `!s.trim()` holds exactly for the strings made only of whitespace. */
  lemma TrimEmptyIffBlank(s: string)
    ensures Trim(s) == [] <==> IsBlank(s)
  {
  }

  /** `s.startsWith(prefix)`: `s` agrees with `prefix` at each of its positions. */
  function StartsWith(s: string, prefix: string): (b: bool)
    ensures b <==> |prefix| <= |s| && forall i :: 0 <= i < |prefix| ==> s[i] == prefix[i]
  {
    |prefix| <= |s| && s[..|prefix|] == prefix
  }

  /** A string starting with `c` starts with `[c] + prefix` exactly when its tail starts with `prefix`. */
  lemma StartsWithCons(s: string, c: char, prefix: string)
    requires s != [] && s[0] == c
    ensures StartsWith(s, [c] + prefix) <==> StartsWith(s[1..], prefix)
  {
  }

  /** `s.includes(sub)`: `sub` occurs in `s` at some position. */
  function Contains(s: string, sub: string): (b: bool)
    ensures b ==> |sub| <= |s|
    ensures StartsWith(s, sub) ==> b
  {
    assert s[0..] == s;
    exists i :: 0 <= i <= |s| && StartsWith(s[i..], sub)
  }

  /** `s.split(sep)` for a one-character separator: never empty, and an empty
      string (or a separator at either end, or two in a row) yields "" parts. */
  function Split(s: string, sep: char): (parts: seq<string>)
    ensures |parts| >= 1
    ensures forall k, i :: 0 <= k < |parts| && 0 <= i < |parts[k]| ==> parts[k][i] != sep
    decreases |s|
  {
    if s == [] then [""]
    else
      var rest := Split(s[1..], sep);
      if s[0] == sep then [""] + rest
      else [[s[0]] + rest[0]] + rest[1..]
  }

  /** `parts.join(sep)` for a one-character separator. The components never call it (they
      only join with ""); it states the round trips that determine `Split`. */
  function Join(parts: seq<string>, sep: char): string
    decreases |parts|
  {
    if parts == [] then ""
    else if |parts| == 1 then parts[0]
    else parts[0] + [sep] + Join(parts[1..], sep)
  }

  /** Joining the parts of a split with the same separator gives the string back. */
  lemma {:induction false} JoinSplit(s: string, sep: char)
    ensures Join(Split(s, sep), sep) == s
    decreases |s|
  {
    if s != [] {
      var rest := Split(s[1..], sep);
      JoinSplit(s[1..], sep);
      if s[0] == sep {
        assert Split(s, sep) == [""] + rest;
        assert ([""] + rest)[1..] == rest;
        assert Join(Split(s, sep), sep) == "" + [sep] + Join(rest, sep);
        assert s == [s[0]] + s[1..];
      } else {
        var head := [s[0]] + rest[0];
        assert Split(s, sep) == [head] + rest[1..];
        if |rest| == 1 {
          assert Join(Split(s, sep), sep) == head;
          assert Join(rest, sep) == rest[0];
        } else {
          assert ([head] + rest[1..])[1..] == rest[1..];
          assert Join(Split(s, sep), sep) == head + [sep] + Join(rest[1..], sep);
          assert Join(rest, sep) == rest[0] + [sep] + Join(rest[1..], sep);
        }
        assert s == [s[0]] + s[1..];
      }
    }
  }

  /** Splitting a join of separator-free parts gives the parts back. */
  lemma {:induction false} SplitJoin(parts: seq<string>, sep: char)
    requires |parts| >= 1
    requires forall k, i :: 0 <= k < |parts| && 0 <= i < |parts[k]| ==> parts[k][i] != sep
    ensures Split(Join(parts, sep), sep) == parts
    decreases |parts|, |parts[0]|
  {
    var w := parts[0];
    if |parts| == 1 {
      SplitWord(w, sep);
    } else if w == [] {
      var tail := Join(parts[1..], sep);
      assert Join(parts, sep) == [sep] + tail;
      assert ([sep] + tail)[1..] == tail;
      SplitJoin(parts[1..], sep);
      assert parts == [""] + parts[1..];
    } else {
      var shorter := [w[1..]] + parts[1..];
      assert shorter[1..] == parts[1..];
      forall k, i | 0 <= k < |shorter| && 0 <= i < |shorter[k]| ensures shorter[k][i] != sep {
        if k == 0 { assert shorter[0][i] == w[i + 1]; } else { assert shorter[k] == parts[k]; }
      }
      SplitJoin(shorter, sep);
      JoinDropsFirstChar(parts, sep);
      SplitCons(Join(parts, sep), sep);
      assert [w[0]] + w[1..] == w;
      assert parts == [w] + parts[1..];
    }
  }

  /** Joining parts whose first part is non-empty starts with that part's first character,
      followed by the join with that character removed. */
  lemma JoinDropsFirstChar(parts: seq<string>, sep: char)
    requires |parts| >= 2 && parts[0] != []
    ensures Join(parts, sep) != []
    ensures Join(parts, sep)[0] == parts[0][0]
    ensures Join(parts, sep)[1..] == Join([parts[0][1..]] + parts[1..], sep)
  {
    var shorter := [parts[0][1..]] + parts[1..];
    assert shorter[1..] == parts[1..];
    assert Join(parts, sep) == parts[0] + [sep] + Join(parts[1..], sep);
  }

  /** One step of `Split` on a string that does not start with the separator. */
  lemma SplitCons(s: string, sep: char)
    requires s != [] && s[0] != sep
    ensures Split(s, sep) == [[s[0]] + Split(s[1..], sep)[0]] + Split(s[1..], sep)[1..]
  {
  }

  /** A separator-free word splits into itself. */
  lemma {:induction false} SplitWord(w: string, sep: char)
    requires forall i :: 0 <= i < |w| ==> w[i] != sep
    ensures Split(w, sep) == [w]
    decreases |w|
  {
    if w != [] {
      SplitWord(w[1..], sep);
      assert [w[0]] + w[1..] == w;
    }
  }

  /** `c.toUpperCase()` restricted to ASCII: lower-case Latin letters map to upper case. */
  function UpperChar(c: char): (u: char)
    ensures 'a' <= c <= 'z' ==> 'A' <= u <= 'Z' && u as int == c as int - 32
    ensures !('a' <= c <= 'z') ==> u == c
  {
    if 'a' <= c <= 'z' then (c as int - 32) as char else c
  }

  /** `s.toUpperCase()`, one character at a time (ASCII case mapping never changes length). */
  function Upper(s: string): (r: string)
    ensures |r| == |s|
    ensures forall i :: 0 <= i < |s| ==> r[i] == UpperChar(s[i])
    decreases |s|
  {
    if s == [] then [] else [UpperChar(s[0])] + Upper(s[1..])
  }

  /** `w.charAt(0)`, and equally `w[0]` once joined (an undefined element joins as ""). */
  function CharAt0(w: string): (r: string)
    ensures |r| <= 1
    ensures r == [] <==> w == []
    ensures w != [] ==> r[0] == w[0]
  {
    if w == [] then "" else [w[0]]
  }

  /** The non-empty elements of `words`, in order. */
  function NonEmptyWords(words: seq<string>): (r: seq<string>)
    ensures |r| <= |words|
    ensures forall k :: 0 <= k < |r| ==> r[k] != []
    ensures forall w :: w in r <==> w in words && w != []
    ensures |words| == 1 ==> r == (if words[0] == [] then [] else words)
    decreases |words|
  {
    if words == [] then []
    else
      var rest := NonEmptyWords(words[1..]);
      assert words == [words[0]] + words[1..];
      if words[0] == [] then rest else [words[0]] + rest
  }

  /** Dropping the empty words keeps the order of the rest: filtering a concatenation
      concatenates the filtered halves. */
  lemma {:induction false} NonEmptyWordsAppend(a: seq<string>, b: seq<string>)
    ensures NonEmptyWords(a + b) == NonEmptyWords(a) + NonEmptyWords(b)
    decreases |a|
  {
    if a == [] {
      assert a + b == b;
    } else {
      assert (a + b)[0] == a[0];
      assert (a + b)[1..] == a[1..] + b;
      NonEmptyWordsAppend(a[1..], b);
    }
  }

  /** Dropping the empty words keeps every other word as many times as it occurs. */
  lemma {:induction false} NonEmptyWordsCount(words: seq<string>)
    ensures multiset(NonEmptyWords(words)) == multiset(words)[[] := 0]
    decreases |words|
  {
    if words != [] {
      NonEmptyWordsCount(words[1..]);
      var rest := NonEmptyWords(words[1..]);
      assert words == [words[0]] + words[1..];
      assert multiset(words) == multiset{words[0]} + multiset(words[1..]);
      if words[0] != [] {
        assert multiset([words[0]] + rest) == multiset{words[0]} + multiset(rest);
      }
    }
  }

  /** `words.map(w => w.charAt(0)).join("")`: one letter per non-empty word, in order. */
  function FirstLetters(words: seq<string>): (r: string)
    ensures |r| == |NonEmptyWords(words)|
    ensures forall k :: 0 <= k < |r| ==> r[k] == NonEmptyWords(words)[k][0]
    decreases |words|
  {
    if words == [] then "" else CharAt0(words[0]) + FirstLetters(words[1..])
  }
}
