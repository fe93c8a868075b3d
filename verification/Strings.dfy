/** Python's `str.split`, `str.join`, `str.rpartition` and `str.strip` on a one-character separator. */
module Strings {

  /** `s.split(sep)`: always at least one part. */
  function Split(s: string, sep: char): (parts: seq<string>)
    ensures |parts| >= 1
  {
    if s == "" then [""]
    else
      var rest := Split(s[1..], sep);
      if s[0] == sep then [""] + rest else [[s[0]] + rest[0]] + rest[1..]
  }

  /** `sep.join(parts)`. */
  function Join(parts: seq<string>, sep: char): string {
    if parts == [] then ""
    else if |parts| == 1 then parts[0]
    else parts[0] + [sep] + Join(parts[1..], sep)
  }

  /** `s.rpartition(sep)[0]`: what stands before the last separator, empty when there is none. */
  function Location(s: string, sep: char): string {
    if s == "" then ""
    else if s[|s| - 1] == sep then s[..|s| - 1]
    else Location(s[..|s| - 1], sep)
  }

  /** The characters that `str.strip()` removes. */
  predicate IsSpace(c: char) {
    || '\t' <= c <= '\r'
    || '\U{1C}' <= c <= ' '
    || c == '\U{85}' || c == '\U{A0}' || c == '\U{1680}'
    || '\U{2000}' <= c <= '\U{200A}'
    || c == '\U{2028}' || c == '\U{2029}' || c == '\U{202F}' || c == '\U{205F}' || c == '\U{3000}'
  }

  /** `s.strip()`; `StripMeans` says what it is. */
  function Strip(s: string): (t: string)
    ensures t == "" || (!IsSpace(t[0]) && !IsSpace(t[|t| - 1]))
    ensures forall c :: c in t ==> c in s
    ensures s == "" || IsSpace(s[0]) || IsSpace(s[|s| - 1]) || t == s
  {
    if s == "" then ""
    else if IsSpace(s[0]) then Strip(s[1..])
    else if IsSpace(s[|s| - 1]) then Strip(s[..|s| - 1])
    else s
  }

  /** The code points of the blanks, one by one. */
  const BLANKS: set<int> := {
    0x9, 0xA, 0xB, 0xC, 0xD, 0x1C, 0x1D, 0x1E, 0x1F, 0x20, 0x85, 0xA0, 0x1680,
    0x2000, 0x2001, 0x2002, 0x2003, 0x2004, 0x2005, 0x2006, 0x2007, 0x2008, 0x2009, 0x200A,
    0x2028, 0x2029, 0x202F, 0x205F, 0x3000}

  lemma IsSpaceMeans(c: char)
    ensures IsSpace(c) <==> c as int in BLANKS
  {
  }

  /** All that lies before `i` and from `j` on is blank. */
  ghost predicate BlankAround(s: string, i: int, j: int) {
    && 0 <= i <= j <= |s|
    && forall k :: 0 <= k < i || j <= k < |s| ==> IsSpace(s[k])
  }

  /** `t` is `s` without blanks in front and behind, and with everything in between. */
  ghost predicate IsStripped(s: string, t: string) {
    && (t != "" ==> !IsSpace(t[0]) && !IsSpace(t[|t| - 1]))
    && exists i, j :: BlankAround(s, i, j) && s[i..j] == t
  }

  lemma {:induction false} StripCuts(s: string) returns (i: nat, j: nat)
    ensures BlankAround(s, i, j) && Strip(s) == s[i..j]
  {
    if s == "" {
      i, j := 0, 0;
    } else if IsSpace(s[0]) {
      i, j := StripCuts(s[1..]);
      assert s[1..][i..j] == s[i + 1..j + 1];
      forall k | 0 <= k < i + 1 || j + 1 <= k < |s| ensures IsSpace(s[k]) {
        assert k > 0 ==> s[k] == s[1..][k - 1];
      }
      i, j := i + 1, j + 1;
    } else if IsSpace(s[|s| - 1]) {
      i, j := StripCuts(s[..|s| - 1]);
      assert s[..|s| - 1][i..j] == s[i..j];
      forall k | 0 <= k < i || j <= k < |s| ensures IsSpace(s[k]) {
        assert k < |s| - 1 ==> s[k] == s[..|s| - 1][k];
      }
    } else {
      i, j := 0, |s|;
    }
  }

  /** Exactly one string is the stripped one. */
  lemma StripMeans(s: string, t: string)
    ensures IsStripped(s, t) <==> t == Strip(s)
  {
    var i, j := StripCuts(s);
    if IsStripped(s, t) {
      var p, q :| BlankAround(s, p, q) && t == s[p..q];
      if i < j {
        assert Strip(s)[0] == s[i] && Strip(s)[j - i - 1] == s[j - 1];
      }
      if p < q {
        assert t[0] == s[p] && t[q - p - 1] == s[q - 1];
      }
    }
  }

  predicate Free(parts: seq<string>, sep: char) {
    forall k :: 0 <= k < |parts| ==> sep !in parts[k]
  }

  lemma {:induction false} SplitIsFree(s: string, sep: char)
    ensures Free(Split(s, sep), sep)
  {
    if s != "" {
      SplitIsFree(s[1..], sep);
    }
  }

  lemma {:induction false} SplitConcat(a: string, b: string, sep: char)
    ensures Split(a + [sep] + b, sep) == Split(a, sep) + Split(b, sep)
  {
    var s := a + [sep] + b;
    if a == "" {
      assert s[1..] == b;
    } else {
      assert s[1..] == a[1..] + [sep] + b;
      SplitConcat(a[1..], b, sep);
    }
  }

  lemma {:induction false} SplitAtom(s: string, sep: char)
    requires sep !in s
    ensures Split(s, sep) == [s]
  {
    if s != "" {
      SplitAtom(s[1..], sep);
      assert [s[0]] + s[1..] == s;
    }
  }

  lemma {:induction false} JoinOfSplit(s: string, sep: char)
    ensures Join(Split(s, sep), sep) == s
  {
    if s != "" {
      JoinOfSplit(s[1..], sep);
      var rest := Split(s[1..], sep);
      if s[0] == sep {
        assert ([""] + rest)[1..] == rest;
      } else {
        assert ([[s[0]] + rest[0]] + rest[1..])[1..] == rest[1..];
      }
    }
  }

  lemma {:induction false} SplitOfJoin(parts: seq<string>, sep: char)
    requires parts != [] && Free(parts, sep)
    ensures Split(Join(parts, sep), sep) == parts
  {
    SplitAtom(parts[0], sep);
    if |parts| > 1 {
      SplitOfJoin(parts[1..], sep);
      SplitConcat(parts[0], Join(parts[1..], sep), sep);
    }
  }

  lemma SplitInjective(a: string, b: string, sep: char)
    requires Split(a, sep) == Split(b, sep)
    ensures a == b
  {
    JoinOfSplit(a, sep);
    JoinOfSplit(b, sep);
  }

  lemma {:induction false} JoinConcat(xs: seq<string>, ys: seq<string>, sep: char)
    requires xs != [] && ys != []
    ensures Join(xs + ys, sep) == Join(xs, sep) + [sep] + Join(ys, sep)
  {
    if |xs| == 1 {
      assert (xs + ys)[1..] == ys;
    } else {
      assert (xs + ys)[1..] == xs[1..] + ys;
      JoinConcat(xs[1..], ys, sep);
    }
  }

  lemma JoinPair(a: string, b: string, sep: char)
    ensures Join([a, b], sep) == a + [sep] + b
  {
    assert [a, b][1..] == [b];
  }

  /** Two strings that agree on their first `n` parts and on the joins of the rest are equal. */
  lemma SuffixDecides(a: string, b: string, n: nat, sep: char)
    requires n < |Split(a, sep)| && n < |Split(b, sep)| && Split(a, sep)[..n] == Split(b, sep)[..n]
    requires Join(Split(a, sep)[n..], sep) == Join(Split(b, sep)[n..], sep)
    ensures a == b
  {
    var xs, ys := Split(a, sep), Split(b, sep);
    SplitIsFree(a, sep);
    SplitIsFree(b, sep);
    SplitOfJoin(xs[n..], sep);
    SplitOfJoin(ys[n..], sep);
    assert xs == xs[..n] + xs[n..] && ys == ys[..n] + ys[n..];
    SplitInjective(a, b, sep);
  }

  lemma PrefixCancels(n: string, a: string, b: string)
    requires n + a == n + b
    ensures a == b
  {
    assert (n + a)[|n|..] == a && (n + b)[|n|..] == b;
  }

  lemma {:induction false} LocationOfAtom(s: string, sep: char)
    requires sep !in s
    ensures Location(s, sep) == ""
  {
    if s != "" {
      LocationOfAtom(s[..|s| - 1], sep);
    }
  }

  lemma {:induction false} LocationOfConcat(a: string, b: string, sep: char)
    requires sep !in b
    ensures Location(a + [sep] + b, sep) == a
    decreases |b|
  {
    var s := a + [sep] + b;
    if b == "" {
      assert s[..|s| - 1] == a;
    } else {
      assert s[..|s| - 1] == a + [sep] + b[..|b| - 1];
      LocationOfConcat(a, b[..|b| - 1], sep);
    }
  }

  /** The location of a joined name is the join of all parts but the last. */
  lemma LocationOfJoin(parts: seq<string>, sep: char)
    requires parts != [] && Free(parts, sep)
    ensures Location(Join(parts, sep), sep) == Join(parts[..|parts| - 1], sep)
  {
    var last := parts[|parts| - 1];
    if |parts| == 1 {
      LocationOfAtom(last, sep);
    } else {
      assert parts == parts[..|parts| - 1] + [last];
      JoinConcat(parts[..|parts| - 1], [last], sep);
      LocationOfConcat(Join(parts[..|parts| - 1], sep), last, sep);
    }
  }

  /** The parts of a location are all parts but the last. */
  lemma PartsOfLocation(s: string, sep: char)
    requires |Split(s, sep)| > 1
    ensures Split(Location(s, sep), sep) == Split(s, sep)[..|Split(s, sep)| - 1]
  {
    var parts := Split(s, sep);
    SplitIsFree(s, sep);
    JoinOfSplit(s, sep);
    LocationOfJoin(parts, sep);
    SplitOfJoin(parts[..|parts| - 1], sep);
  }

  lemma LocationOfParts(s: string, sep: char)
    ensures Join(Split(s, sep)[..|Split(s, sep)| - 1], sep) == Location(s, sep)
  {
    JoinOfSplit(s, sep);
    SplitIsFree(s, sep);
    LocationOfJoin(Split(s, sep), sep);
  }

  lemma LocationOfSingle(s: string, sep: char)
    requires |Split(s, sep)| == 1
    ensures Location(s, sep) == "" && sep !in s && Split(s, sep) == [s]
  {
    var parts := Split(s, sep);
    SplitIsFree(s, sep);
    JoinOfSplit(s, sep);
    assert parts == [s];
    LocationOfAtom(s, sep);
  }
}
