/**
 * The Python string operations the program relies on: `str.split(sep)`,
 * `sep.join(parts)`, `str.split()` and the whitespace class that
 * `str.isspace` and the regular-expression class `\s` share.
 */
module Strings {

  /** Python's whitespace characters (`str.isspace`, `\s` in a str pattern). */
  predicate IsSpace(c: char)
  {
    c == ' ' || ('\t' <= c <= '\r') || ('\U{1c}' <= c <= '\U{1f}')
    || c == '\U{85}' || c == '\U{a0}' || c == '\U{1680}'
    || ('\U{2000}' <= c <= '\U{200a}') || c == '\U{2028}' || c == '\U{2029}'
    || c == '\U{202f}' || c == '\U{205f}' || c == '\U{3000}'
  }

  /** Position of the first occurrence of `c` in `s`. */
  function IndexOf(s: string, c: char): (i: nat)
    requires c in s
    ensures i < |s| && s[i] == c && c !in s[..i]
  {
    if s[0] == c then 0 else 1 + IndexOf(s[1..], c)
  }

  /** `s.split(c)`: the pieces between occurrences of `c`; never empty. */
  function Split(s: string, c: char): (parts: seq<string>)
    ensures |parts| >= 1
    ensures forall i :: 0 <= i < |parts| ==> c !in parts[i]
    decreases |s|
  {
    if c !in s then [s]
    else
      var i := IndexOf(s, c);
      [s[..i]] + Split(s[i + 1..], c)
  }

  /** `c.join(parts)`. */
  function Join(parts: seq<string>, c: char): string
  {
    if parts == [] then ""
    else if |parts| == 1 then parts[0]
    else parts[0] + [c] + Join(parts[1..], c)
  }

  /** The first `c` of `a + [c] + b`, when `a` has none, is right after `a`. */
  lemma {:induction false} IndexOfAfter(a: string, c: char, b: string)
    requires c !in a
    ensures c in a + [c] + b && IndexOf(a + [c] + b, c) == |a|
  {
    var s := a + [c] + b;
    assert s[|a|] == c;
    if a != [] {
      assert s[1..] == a[1..] + [c] + b;
      IndexOfAfter(a[1..], c, b);
    }
  }

  /** Joining a piece in front of a non-empty list of pieces. */
  lemma JoinCons(h: string, rest: seq<string>, c: char)
    requires rest != []
    ensures Join([h] + rest, c) == h + [c] + Join(rest, c)
  {
    assert ([h] + rest)[1..] == rest;
  }

  /** Joining the pieces of a split gives the original string back. */
  lemma {:induction false} JoinSplit(s: string, c: char)
    ensures Join(Split(s, c), c) == s
    decreases |s|
  {
    if c in s {
      var i := IndexOf(s, c);
      var head, tail := s[..i], s[i + 1..];
      var rest := Split(tail, c);
      JoinSplit(tail, c);
      assert Split(s, c) == [head] + rest;
      JoinCons(head, rest, c);
      assert s == head + [c] + tail;
    }
  }

  /** Splitting a join of separator-free pieces gives the pieces back. */
  lemma {:induction false} SplitJoin(parts: seq<string>, c: char)
    requires parts != []
    requires forall i :: 0 <= i < |parts| ==> c !in parts[i]
    ensures Split(Join(parts, c), c) == parts
    decreases |parts|
  {
    if |parts| > 1 {
      var s := Join(parts, c);
      assert s == parts[0] + [c] + Join(parts[1..], c);
      assert c in s by { assert s[|parts[0]|] == c; }
      var i := IndexOf(s, c);
      assert i == |parts[0]| by {
        assert c !in s[..|parts[0]|] by { assert s[..|parts[0]|] == parts[0]; }
      }
      assert s[..i] == parts[0];
      assert s[i + 1..] == Join(parts[1..], c);
      SplitJoin(parts[1..], c);
    } else {
      assert Join(parts, c) == parts[0];
    }
  }

  /** Length of the run of non-whitespace characters that starts `s`. */
  function WordLength(s: string): (n: nat)
    ensures n <= |s|
    ensures forall i :: 0 <= i < n ==> !IsSpace(s[i])
    ensures n < |s| ==> IsSpace(s[n])
  {
    if s == [] || IsSpace(s[0]) then 0 else 1 + WordLength(s[1..])
  }

  /** `s.split()`: the maximal runs of non-whitespace characters. */
  function Tokens(s: string): (words: seq<string>)
    ensures forall i :: 0 <= i < |words| ==> words[i] != []
    ensures forall i, j :: 0 <= i < |words| && 0 <= j < |words[i]| ==> !IsSpace(words[i][j])
    decreases |s|
  {
    if s == [] then []
    else if IsSpace(s[0]) then Tokens(s[1..])
    else
      var n := WordLength(s);
      [s[..n]] + Tokens(s[n..])
  }

  /** `s` with its whitespace removed. */
  function NonSpace(s: string): string
  {
    if s == [] then [] else (if IsSpace(s[0]) then [] else [s[0]]) + NonSpace(s[1..])
  }

  /** Concatenation of a list of strings. */
  function Concat(words: seq<string>): string
  {
    if words == [] then [] else words[0] + Concat(words[1..])
  }

  lemma {:induction false} NonSpaceAppend(s: string, t: string)
    ensures NonSpace(s + t) == NonSpace(s) + NonSpace(t)
  {
    if s != [] {
      assert (s + t)[1..] == s[1..] + t;
      NonSpaceAppend(s[1..], t);
    } else {
      assert s + t == t;
    }
  }

  lemma {:induction false} NonSpaceWord(s: string)
    requires forall i :: 0 <= i < |s| ==> !IsSpace(s[i])
    ensures NonSpace(s) == s
  {
    if s != [] {
      NonSpaceWord(s[1..]);
    }
  }

  /**
   * `s.split()` loses only whitespace: the words, put back together, are
   * the non-whitespace characters of `s` in order.
   */
  lemma {:induction false} TokensLoseOnlySpace(s: string)
    ensures Concat(Tokens(s)) == NonSpace(s)
    decreases |s|
  {
    if s != [] {
      if IsSpace(s[0]) {
        TokensLoseOnlySpace(s[1..]);
      } else {
        var n := WordLength(s);
        TokensLoseOnlySpace(s[n..]);
        assert s == s[..n] + s[n..];
        NonSpaceAppend(s[..n], s[n..]);
        NonSpaceWord(s[..n]);
      }
    }
  }

  /** A run of non-whitespace characters is one word. */
  lemma TokensWord(w: string)
    requires w != [] && forall i :: 0 <= i < |w| ==> !IsSpace(w[i])
    ensures Tokens(w) == [w]
  {
    assert WordLength(w) == |w|;
    assert w[..|w|] == w && w[|w|..] == [];
  }

  /** A word of `s` ends at the first whitespace, even when more text follows. */
  lemma WordLengthAppend(s: string, u: string)
    requires WordLength(s) < |s| || (u != [] && IsSpace(u[0]))
    ensures WordLength(s + u) == WordLength(s)
  {
    var n := WordLength(s);
    var su := s + u;
    assert forall i :: 0 <= i < n ==> su[i] == s[i];
    assert n < |su| && IsSpace(su[n]);
    WordLengthFirstSpace(su, n);
  }

  /** The word length is the position of the first whitespace. */
  lemma {:induction false} WordLengthFirstSpace(s: string, n: nat)
    requires n < |s| && IsSpace(s[n]) && forall i :: 0 <= i < n ==> !IsSpace(s[i])
    ensures WordLength(s) == n
  {
    if n > 0 {
      WordLengthFirstSpace(s[1..], n - 1);
    }
  }

  /** `split()` skips leading whitespace, whatever follows. */
  lemma TokensSpaceFront(s: string, u: string)
    requires s != [] && IsSpace(s[0])
    ensures Tokens(s + u) == Tokens(s[1..] + u)
  {
    assert (s + u)[0] == s[0] && (s + u)[1..] == s[1..] + u;
  }

  /** The first word of `s` is the first word of `s + u` when it ends inside `s` or at a space of `u`. */
  lemma TokensWordFront(s: string, u: string)
    requires s != [] && !IsSpace(s[0])
    requires WordLength(s) < |s| || (u != [] && IsSpace(u[0]))
    ensures Tokens(s + u) == [s[..WordLength(s)]] + Tokens(s[WordLength(s)..] + u)
  {
    var n := WordLength(s);
    WordLengthAppend(s, u);
    SliceAppend(s, u, n);
    assert (s + u)[0] == s[0];
  }

  lemma SliceAppend(s: string, u: string, n: nat)
    requires n <= |s|
    ensures (s + u)[..n] == s[..n] && (s + u)[n..] == s[n..] + u
  {
  }

  /**
   * `split()` cuts at every whitespace character: the words around one are
   * the words of either side.
   */
  lemma {:induction false} TokensAtSpace(s: string, c: char, t: string)
    requires IsSpace(c)
    ensures Tokens(s + [c] + t) == Tokens(s) + Tokens(t)
    decreases |s|
  {
    var u := [c] + t;
    assert s + [c] + t == s + u;
    if s == [] {
      assert s + u == u && u[0] == c && u[1..] == t;
    } else if IsSpace(s[0]) {
      TokensSpaceFront(s, u);
      TokensAtSpace(s[1..], c, t);
      assert s[1..] + [c] + t == s[1..] + u;
    } else {
      var n := WordLength(s);
      TokensWordFront(s, u);
      TokensAtSpace(s[n..], c, t);
      assert s[n..] + [c] + t == s[n..] + u;
    }
  }

  /** Number of occurrences of `c` in `s`. */
  function Count(s: string, c: char): nat
  {
    if s == [] then 0 else (if s[0] == c then 1 else 0) + Count(s[1..], c)
  }

  lemma {:induction false} CountAppend(s: string, t: string, c: char)
    ensures Count(s + t, c) == Count(s, c) + Count(t, c)
  {
    if s != [] {
      assert (s + t)[1..] == s[1..] + t;
      CountAppend(s[1..], t, c);
    } else {
      assert s + t == t;
    }
  }

  lemma {:induction false} CountAbsent(s: string, c: char)
    requires c !in s
    ensures Count(s, c) == 0
  {
    if s != [] {
      CountAbsent(s[1..], c);
    }
  }

  /** `s.split(c)` has one piece more than `s` has separators. */
  lemma {:induction false} SplitCount(s: string, c: char)
    ensures |Split(s, c)| == Count(s, c) + 1
    decreases |s|
  {
    if c in s {
      var i := IndexOf(s, c);
      SplitCount(s[i + 1..], c);
      assert s == s[..i] + ([c] + s[i + 1..]);
      CountAppend(s[..i], [c] + s[i + 1..], c);
      CountAppend([c], s[i + 1..], c);
      CountAbsent(s[..i], c);
    } else {
      CountAbsent(s, c);
    }
  }
}
