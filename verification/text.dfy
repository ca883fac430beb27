/** Character-level helpers on strings: searching for a character, prefixes
    and suffixes, and JavaScript's `Array.prototype.join` with its inverse
    `String.prototype.split` for a one-character separator. */
module Text {

  /** The character `c` does not occur in `s`. */
  predicate Lacks(s: string, c: char) {
    forall i :: 0 <= i < |s| ==> s[i] != c
  }

  /** Index of the first `c` in `s`, or `|s|` when `s` has none. */
  function IndexOf(s: string, c: char): (k: nat)
    ensures k <= |s|
    ensures Lacks(s[..k], c)
    ensures k < |s| ==> s[k] == c
  {
    if |s| == 0 then 0
    else if s[0] == c then 0
    else 1 + IndexOf(s[1..], c)
  }

  /** Searching `a + b` for a character `a` lacks skips over `a`. */
  lemma {:induction false} IndexOfAppend(a: string, b: string, c: char)
    requires Lacks(a, c)
    ensures IndexOf(a + b, c) == |a| + IndexOf(b, c)
  {
    if |a| > 0 {
      assert (a + b)[0] == a[0];
      assert (a + b)[1..] == a[1..] + b;
      IndexOfAppend(a[1..], b, c);
    } else {
      assert a + b == b;
    }
  }

  /** A string that holds `c` is searched no further than its own length. */
  lemma {:induction false} IndexOfPrefix(a: string, b: string, c: char)
    requires !Lacks(a, c)
    ensures IndexOf(a + b, c) == IndexOf(a, c)
  {
    assert (a + b)[0] == a[0];
    if a[0] != c {
      assert (a + b)[1..] == a[1..] + b;
      IndexOfPrefix(a[1..], b, c);
    }
  }

  /** `p` is a prefix of `s`, stated by indices. */
  predicate StartsWith(s: string, p: string) {
    |p| <= |s| && s[..|p|] == p
  }

  /** `p` is a suffix of `s`, stated by indices. */
  predicate EndsWith(s: string, p: string) {
    |p| <= |s| && s[|s| - |p|..] == p
  }

  /** JavaScript's `xs.join(sep)` for a one-character separator. */
  function Join(xs: seq<string>, sep: char): (s: string)
    ensures |xs| == 1 ==> s == xs[0]
    ensures |xs| > 1 ==> StartsWith(s, xs[0] + [sep])
  {
    if |xs| == 0 then ""
    else if |xs| == 1 then xs[0]
    else xs[0] + [sep] + Join(xs[1..], sep)
  }

  /** JavaScript's `s.split(sep)` for a one-character separator: the pieces
      between separators, always at least one. */
  function Split(s: string, sep: char): (parts: seq<string>)
    ensures |parts| >= 1
    ensures forall i :: 0 <= i < |parts| ==> Lacks(parts[i], sep)
    decreases |s|
  {
    var k := IndexOf(s, sep);
    if k == |s| then
      assert s[..k] == s;
      [s]
    else
      [s[..k]] + Split(s[k + 1..], sep)
  }

  /** Joining pieces that do not contain the separator and splitting the
      result again gives back the pieces. */
  lemma {:induction false} SplitJoin(xs: seq<string>, sep: char)
    requires |xs| >= 1
    requires forall i :: 0 <= i < |xs| ==> Lacks(xs[i], sep)
    ensures Split(Join(xs, sep), sep) == xs
  {
    if |xs| == 1 {
      assert IndexOf(xs[0], sep) == |xs[0]| by {
        IndexOfAppend(xs[0], "", sep);
        assert xs[0] + "" == xs[0];
      }
    } else {
      var rest := Join(xs[1..], sep);
      var s := xs[0] + [sep] + rest;
      assert s == xs[0] + ([sep] + rest);
      IndexOfAppend(xs[0], [sep] + rest, sep);
      assert IndexOf(s, sep) == |xs[0]|;
      assert s[..|xs[0]|] == xs[0];
      assert s[|xs[0]| + 1..] == rest;
      SplitJoin(xs[1..], sep);
      assert [xs[0]] + xs[1..] == xs;
    }
  }
}
