/**
 * Escaping parameter keys for storage: `%`, `.`, `$`, `__` and a leading `_` are replaced one kind
 * after the other. The printer is fused into one pass over the key, which the parser inverts.
 */
module KeyEscaper {
  import opened Wrappers
  import opened Strings

  datatype Error = EmptyKey

  /** `s.startswith(p)`. */
  predicate StartsWith(s: string, p: string) {
    p <= s
  }

  /** `s.replace(pat, rep)`: leftmost, non-overlapping occurrences. */
  function Replace(s: string, pat: string, rep: string): string
    requires pat != ""
  {
    if s == "" then ""
    else if StartsWith(s, pat) then rep + Replace(s[|pat|..], pat, rep)
    else [s[0]] + Replace(s[1..], pat, rep)
  }

  /** `s.split(sep)` for a separator of any positive length. */
  function SplitOn(s: string, sep: string): (parts: seq<string>)
    requires sep != ""
    ensures |parts| >= 1
  {
    if s == "" then [""]
    else if StartsWith(s, sep) then [""] + SplitOn(s[|sep|..], sep)
    else
      var rest := SplitOn(s[1..], sep);
      [[s[0]] + rest[0]] + rest[1..]
  }

  const MAPPING: seq<(string, string)> := [(".", "%2E"), ("$", "%24"), ("__", "%_%_")]

  function ReplaceAll(s: string): string {
    Replace(Replace(Replace(s, ".", "%2E"), "$", "%24"), "__", "%_%_")
  }

  function RestoreAll(s: string): string {
    Replace(Replace(Replace(s, "%2E", "."), "%24", "$"), "%_%_", "__")
  }

  function MapRestore(parts: seq<string>): seq<string> {
    seq(|parts|, k requires 0 <= k < |parts| => RestoreAll(parts[k]))
  }

  /** A leading underscore gets its own code, and loses it again. */
  function FixHead(s: string): string {
    if StartsWith(s, "_") then "%_" + s[1..] else s
  }

  function UnfixHead(s: string): string {
    if StartsWith(s, "%_") then "_" + s[2..] else s
  }

  /** The escaped form of a stripped key. */
  function Escaped(key: string): string {
    FixHead(ReplaceAll(Replace(key, "%", "%%")))
  }

  /** What a stored key is read back as, before its head is looked at. */
  function Joined(value: string): string {
    Join(MapRestore(SplitOn(value, "%%")), '%')
  }

  function Unescaped(value: string): string {
    UnfixHead(Joined(value))
  }

  /** Quote a parameter key. */
  method Escape(value: string) returns (r: Result<string, Error>)
    ensures exists key :: IsStripped(value, key) && r == if key == "" then Err(EmptyKey) else Ok(Escaped(key))
  {
    var v := Strip(value);
    StripMeans(value, v);
    if v == "" {
      return Err(EmptyKey);
    }
    v := Replace(v, "%", "%%");
    ghost var start := v;
    for n := 0 to |MAPPING|
      invariant n == 0 ==> v == start
      invariant n == 1 ==> v == Replace(start, ".", "%2E")
      invariant n == 2 ==> v == Replace(Replace(start, ".", "%2E"), "$", "%24")
      invariant n == 3 ==> v == ReplaceAll(start)
    {
      v := Replace(v, MAPPING[n].0, MAPPING[n].1);
    }
    if StartsWith(v, "_") {
      v := "%_" + v[1..];
    }
    r := Ok(v);
  }

  /** Replace the codes in one part by what they stand for. */
  method UnescapePart(value: string) returns (v: string)
    ensures v == RestoreAll(value)
  {
    v := value;
    for n := 0 to |MAPPING|
      invariant n == 0 ==> v == value
      invariant n == 1 ==> v == Replace(value, "%2E", ".")
      invariant n == 2 ==> v == Replace(Replace(value, "%2E", "."), "%24", "$")
      invariant n == 3 ==> v == RestoreAll(value)
    {
      v := Replace(v, MAPPING[n].1, MAPPING[n].0);
    }
  }

  /** Unquote a quoted parameter key. */
  method Unescape(value: string) returns (v: string)
    ensures v == Unescaped(value)
  {
    var parts := SplitOn(value, "%%");
    var restored: seq<string> := [];
    for n := 0 to |parts|
      invariant restored == MapRestore(parts[..n])
    {
      var part := UnescapePart(parts[n]);
      restored := restored + [part];
    }
    assert parts[..|parts|] == parts;
    v := Join(restored, '%');
    if StartsWith(v, "%_") {
      v := "_" + v[2..];
    }
  }

  /* ---------- One pass over the key ---------- */

  /** The code of one character. */
  function Code(c: char): string {
    if c == '%' then "%%" else if c == '.' then "%2E" else if c == '$' then "%24" else [c]
  }

  /** The escaped form before its head is fixed, in one pass. */
  function Fused(key: string): string {
    if key == "" then ""
    else if StartsWith(key, "__") then "%_%_" + Fused(key[2..])
    else Code(key[0]) + Fused(key[1..])
  }

  /** A one-character pattern is replaced character by character. */
  lemma {:induction false} ReplaceConcat(a: string, b: string, c: char, rep: string)
    ensures Replace(a + b, [c], rep) == Replace(a, [c], rep) + Replace(b, [c], rep)
  {
    if a == "" {
      assert a + b == b;
    } else {
      assert (a + b)[1..] == a[1..] + b;
      ReplaceConcat(a[1..], b, c, rep);
      assert StartsWith(a + b, [c]) <==> a[0] == c;
      assert StartsWith(a, [c]) <==> a[0] == c;
    }
  }

  /** Text in which no occurrence of the pattern can begin passes unchanged. */
  lemma {:induction false} ReplaceSkips(a: string, b: string, pat: string, rep: string)
    requires pat != "" && forall k :: 0 <= k < |a| ==> a[k] != pat[0]
    ensures Replace(a + b, pat, rep) == a + Replace(b, pat, rep)
  {
    if a == "" {
      assert a + b == b;
    } else {
      assert (a + b)[1..] == a[1..] + b;
      ReplaceSkips(a[1..], b, pat, rep);
    }
  }

  lemma ReplaceHit(b: string, pat: string, rep: string)
    requires pat != ""
    ensures Replace(pat + b, pat, rep) == rep + Replace(b, pat, rep)
  {
    assert (pat + b)[..|pat|] == pat && (pat + b)[|pat|..] == b;
  }

  function Coded(key: string): string {
    if key == "" then "" else Code(key[0]) + Coded(key[1..])
  }

  lemma CodeOfOne(c: char)
    ensures Replace(Replace(Replace([c], "%", "%%"), ".", "%2E"), "$", "%24") == Code(c)
  {
    forall t: string, pat: string, rep: string | |pat| == 1 && pat[0] !in t ensures Replace(t, pat, rep) == t {
      ReplaceSkips(t, "", pat, rep);
      assert t + "" == t;
    }
    forall d: char, rep: string ensures Replace([d], [d], rep) == rep {
      ReplaceHit("", [d], rep);
      assert [d] + "" == [d] && rep + "" == rep;
    }
    if c == '.' {
      assert Replace(".", ".", "%2E") == "%2E";
    } else if c == '$' {
      assert Replace("$", "$", "%24") == "%24";
    } else if c == '%' {
      assert Replace("%", "%", "%%") == "%%";
    }
  }

  /** The three one-character replacements together code each character by itself. */
  lemma {:induction false} CodedIsReplaced(key: string)
    ensures Replace(Replace(Replace(key, "%", "%%"), ".", "%2E"), "$", "%24") == Coded(key)
  {
    if key != "" {
      var c, rest := [key[0]], key[1..];
      assert key == c + rest;
      ReplaceConcat(c, rest, '%', "%%");
      var c1, r1 := Replace(c, "%", "%%"), Replace(rest, "%", "%%");
      ReplaceConcat(c1, r1, '.', "%2E");
      var c2, r2 := Replace(c1, ".", "%2E"), Replace(r1, ".", "%2E");
      ReplaceConcat(c2, r2, '$', "%24");
      CodeOfOne(key[0]);
      CodedIsReplaced(rest);
    }
  }

  lemma CodedHead(key: string)
    ensures StartsWith(Coded(key), "_") <==> StartsWith(key, "_")
  {
  }

  lemma FusedHead(key: string)
    ensures StartsWith(Fused(key), "_") <==> StartsWith(key, "_") && !StartsWith(key, "__")
    ensures !StartsWith(key, "_") ==> !StartsWith(Fused(key), "_") && !StartsWith(Fused(key), "%_")
    ensures StartsWith(key, "_") && !StartsWith(key, "__") ==> Fused(key) == "_" + Fused(key[1..])
    ensures key != "" && key[0] == '%' ==> StartsWith(Fused(key), "%%")
  {
    if key != "" && !StartsWith(key, "__") {
      var code := Code(key[0]);
      assert Fused(key)[0] == code[0] && (|code| > 1 ==> Fused(key)[1] == code[1]);
    }
  }

  lemma CodedPair(key: string)
    requires StartsWith(key, "__")
    ensures Coded(key) == "__" + Coded(key[2..])
  {
    assert key[1..][1..] == key[2..] && key[1..][0] == '_';
    assert Coded(key[1..]) == "_" + Coded(key[2..]);
    assert Coded(key) == "_" + ("_" + Coded(key[2..]));
  }

  lemma CodedSingle(key: string)
    requires StartsWith(key, "_") && !StartsWith(key, "__")
    ensures Replace(Coded(key), "__", "%_%_") == "_" + Replace(Coded(key[1..]), "__", "%_%_")
  {
    CodedHead(key[1..]);
    var rest := Coded(key[1..]);
    var v := "_" + rest;
    assert Coded(key) == v && v[1..] == rest;
    assert |key| >= 2 ==> key[..2] == [key[0], key[1]] && key[1..][..1] == [key[1]];
    assert |v| >= 2 ==> v[..2] == [v[0], v[1]] && rest[..1] == [v[1]];
  }

  /** Replacing one kind after the other is the single pass. */
  lemma {:induction false} FusedIsReplaced(key: string)
    ensures Replace(Coded(key), "__", "%_%_") == Fused(key)
  {
    if key == "" {
    } else if StartsWith(key, "__") {
      CodedPair(key);
      ReplaceHit(Coded(key[2..]), "__", "%_%_");
      FusedIsReplaced(key[2..]);
    } else {
      FusedIsReplaced(key[1..]);
      if key[0] == '_' {
        CodedSingle(key);
      } else {
        ReplaceSkips(Code(key[0]), Coded(key[1..]), "__", "%_%_");
      }
    }
  }

  lemma EscapedIsFused(key: string)
    ensures Escaped(key) == FixHead(Fused(key))
  {
    CodedIsReplaced(key);
    FusedIsReplaced(key);
  }

  /* ---------- Reading back ---------- */

  /** No occurrence of `pat` begins at `k`, whatever follows `t`. */
  predicate Clash(t: string, k: nat, pat: string) {
    exists j :: 0 <= j < |pat| && k + j < |t| && t[k + j] != pat[j]
  }

  predicate Inert(t: string, pat: string) {
    forall k: nat :: k < |t| ==> Clash(t, k, pat)
  }

  lemma ClashStops(t: string, s: string, pat: string)
    requires Clash(t, 0, pat)
    ensures !StartsWith(t + s, pat)
  {
    var j :| 0 <= j < |pat| && 0 + j < |t| && t[0 + j] != pat[j];
    var u := t + s;
    assert u[j] == t[j];
    assert |pat| <= |u| ==> u[..|pat|][j] == u[j];
  }

  lemma InertTail(t: string, pat: string)
    requires t != "" && Inert(t, pat)
    ensures Inert(t[1..], pat)
  {
    forall k: nat | k < |t[1..]| ensures Clash(t[1..], k, pat) {
      assert Clash(t, k + 1, pat);
      var j :| 0 <= j < |pat| && k + 1 + j < |t| && t[k + 1 + j] != pat[j];
      assert t[1..][k + j] != pat[j];
    }
  }

  lemma {:induction false} ReplaceInert(t: string, s: string, pat: string, rep: string)
    requires pat != "" && Inert(t, pat)
    ensures Replace(t + s, pat, rep) == t + Replace(s, pat, rep)
  {
    if t == "" {
      assert t + s == s;
    } else {
      assert Clash(t, 0, pat);
      ClashStops(t, s, pat);
      InertTail(t, pat);
      assert (t + s)[1..] == t[1..] + s;
      ReplaceInert(t[1..], s, pat, rep);
    }
  }

  lemma {:induction false} SplitInert(t: string, s: string)
    requires Inert(t, "%%")
    ensures SplitOn(t + s, "%%") == [t + SplitOn(s, "%%")[0]] + SplitOn(s, "%%")[1..]
  {
    if t == "" {
      assert t + s == s;
      assert t + SplitOn(s, "%%")[0] == SplitOn(s, "%%")[0];
    } else {
      assert Clash(t, 0, "%%");
      ClashStops(t, s, "%%");
      InertTail(t, "%%");
      assert (t + s)[1..] == t[1..] + s;
      SplitInert(t[1..], s);
      assert [t[0]] + (t[1..] + SplitOn(s, "%%")[0]) == t + SplitOn(s, "%%")[0];
    }
  }

  /** Text that disagrees with the pattern in its first or second character at every place. */
  lemma ShortInert(t: string, pat: string)
    requires |pat| >= 2
    requires forall k {:trigger t[k]} :: 0 <= k < |t| ==> t[k] != pat[0] || (k + 1 < |t| && t[k + 1] != pat[1])
    ensures Inert(t, pat)
  {
    forall k: nat | k < |t| ensures Clash(t, k, pat) {
      if t[k] != pat[0] {
        assert t[k + 0] != pat[0];
      } else {
        assert t[k + 1] != pat[1];
      }
    }
  }

  lemma InertHead()
    ensures Inert("%_", "%%") && Inert("%_", "%2E") && Inert("%_", "%24")
  {
    ShortInert("%_", "%%");
    ShortInert("%_", "%2E");
    ShortInert("%_", "%24");
  }

  lemma InertPair()
    ensures Inert("%_%_", "%%") && Inert("%_%_", "%2E") && Inert("%_%_", "%24")
  {
    ShortInert("%_%_", "%%");
    ShortInert("%_%_", "%2E");
    ShortInert("%_%_", "%24");
  }

  lemma InertChar(c: char, pat: string)
    requires c != '%' && pat != "" && pat[0] == '%'
    ensures Inert([c], pat)
  {
    assert [c][0 + 0] != pat[0];
    assert Clash([c], 0, pat);
  }

  lemma InertCode(c: char)
    requires c != '%'
    ensures Inert(Code(c), "%%")
  {
    ShortInert("%2E", "%%");
    ShortInert("%24", "%%");
    InertChar(c, "%%");
  }

  lemma LongInert(t: string, pat: string)
    requires |pat| == |t| == 3 && t[2] != pat[2] && t[1] != pat[0] && t[2] != pat[0]
    ensures Inert(t, pat)
  {
    forall k: nat | k < |t| ensures Clash(t, k, pat) {
      if k == 0 {
        assert t[0 + 2] != pat[2];
      } else {
        assert t[k + 0] != pat[0];
      }
    }
  }

  function MapFused(parts: seq<string>): (r: seq<string>)
    ensures |r| == |parts|
    ensures forall k :: 0 <= k < |parts| ==> r[k] == Fused(parts[k])
  {
    if parts == [] then [] else [Fused(parts[0])] + MapFused(parts[1..])
  }

  lemma FusedOne(c: char, p: string, rest: string)
    requires !StartsWith([c] + rest, "__") && (p == "" || (rest != "" && p[0] == rest[0]))
    ensures Fused([c] + p) == Code(c) + Fused(p)
  {
    var u, w := [c] + p, [c] + rest;
    assert u[1..] == p;
    assert p != "" ==> u[..2] == w[..2];
  }

  /** The first part of a split starts like the whole, or the whole starts with the separator. */
  lemma FirstPart(s: string)
    ensures var p := Split(s, '%')[0]; p == "" || (s != "" && p[0] == s[0])
  {
  }

  lemma SplitFusedOne(key: string)
    requires key != "" && !StartsWith(key, "__") && key[0] != '%'
    requires SplitOn(Fused(key[1..]), "%%") == MapFused(Split(key[1..], '%'))
    ensures SplitOn(Fused(key), "%%") == MapFused(Split(key, '%'))
  {
    InertCode(key[0]);
    SplitInert(Code(key[0]), Fused(key[1..]));
    var ps := Split(key[1..], '%');
    FirstPart(key[1..]);
    assert key == [key[0]] + key[1..];
    FusedOne(key[0], ps[0], key[1..]);
    assert ([[key[0]] + ps[0]] + ps[1..])[1..] == ps[1..];
  }

  lemma FusedPair(p: string)
    ensures Fused("__" + p) == "%_%_" + Fused(p)
  {
    assert ("__" + p)[..2] == "__" && ("__" + p)[2..] == p;
  }

  lemma Nested(c: char, d: char, p: string, tail: seq<string>)
    ensures var qs := [[d] + p] + tail; [[c] + qs[0]] + qs[1..] == [[c, d] + p] + tail
  {
    var qs := [[d] + p] + tail;
    assert qs[1..] == tail;
    assert [c] + ([d] + p) == [c, d] + p;
  }

  lemma DropDrop(s: string, a: nat, b: nat)
    requires a + b <= |s|
    ensures s[a..][b..] == s[a + b..]
  {
  }

  lemma SplitPair(key: string)
    requires StartsWith(key, "__")
    ensures Split(key, '%') == ["__" + Split(key[2..], '%')[0]] + Split(key[2..], '%')[1..]
  {
    DropDrop(key, 1, 1);
    var ps := Split(key[2..], '%');
    Nested('_', '_', ps[0], ps[1..]);
  }

  lemma SplitFusedPair(key: string)
    requires StartsWith(key, "__") && SplitOn(Fused(key[2..]), "%%") == MapFused(Split(key[2..], '%'))
    ensures SplitOn(Fused(key), "%%") == MapFused(Split(key, '%'))
  {
    InertPair();
    SplitInert("%_%_", Fused(key[2..]));
    var ps := Split(key[2..], '%');
    SplitPair(key);
    FusedPair(ps[0]);
    assert (["__" + ps[0]] + ps[1..])[1..] == ps[1..];
  }

  /** Codes start at code boundaries: `%%` in the output is a `%` of the key, and nothing else is. */
  lemma {:induction false} SplitOfFused(key: string)
    ensures SplitOn(Fused(key), "%%") == MapFused(Split(key, '%'))
  {
    if key == "" {
    } else if StartsWith(key, "__") {
      SplitOfFused(key[2..]);
      SplitFusedPair(key);
    } else if key[0] == '%' {
      SplitOfFused(key[1..]);
      var rest := Fused(key[1..]);
      assert Fused(key) == "%%" + rest && ("%%" + rest)[2..] == rest && ("%%" + rest)[..2] == "%%";
    } else {
      SplitOfFused(key[1..]);
      SplitFusedOne(key);
    }
  }

  /* ---------- The codes of one part, undone one kind after the other ---------- */

  /** A part without `%` after the first `n` kinds of codes have been undone. */
  function Partial(p: string, n: nat): string {
    if p == "" then ""
    else if StartsWith(p, "__") then (if n >= 3 then "__" else "%_%_") + Partial(p[2..], n)
    else
      (if p[0] == '.' && n == 0 then "%2E" else if p[0] == '$' && n <= 1 then "%24" else [p[0]]) + Partial(p[1..], n)
  }

  lemma {:induction false} PartialEnds(p: string)
    requires '%' !in p
    ensures Partial(p, 0) == Fused(p) && Partial(p, 3) == p
  {
    if p == "" {
    } else if StartsWith(p, "__") {
      PartialEnds(p[2..]);
      assert p == "__" + p[2..];
    } else {
      PartialEnds(p[1..]);
      assert p == [p[0]] + p[1..];
    }
  }

  lemma {:induction false} PartialStep(p: string, n: nat, plain: string, code: string)
    requires '%' !in p && n < 3 && (plain, code) == MAPPING[n]
    ensures Replace(Partial(p, n), code, plain) == Partial(p, n + 1)
  {
    InertPair();
    assert code in ["%2E", "%24", "%_%_"] && code != "" && code[0] == '%';
    if p == "" {
    } else if StartsWith(p, "__") {
      PartialStep(p[2..], n, plain, code);
      if n == 2 {
        ReplaceHit(Partial(p[2..], n), code, plain);
      } else {
        ReplaceInert("%_%_", Partial(p[2..], n), code, plain);
      }
    } else {
      PartialStep(p[1..], n, plain, code);
      if p[0] == '.' && n == 0 {
        ReplaceHit(Partial(p[1..], n), code, plain);
      } else if p[0] == '$' && n == 0 {
        LongInert("%24", "%2E");
        ReplaceInert("%24", Partial(p[1..], n), code, plain);
      } else if p[0] == '$' && n == 1 {
        ReplaceHit(Partial(p[1..], n), code, plain);
      } else {
        InertChar(p[0], code);
        ReplaceInert([p[0]], Partial(p[1..], n), code, plain);
      }
    }
  }

  lemma PartialSteps(p: string)
    requires '%' !in p
    ensures Replace(Partial(p, 0), "%2E", ".") == Partial(p, 1)
    ensures Replace(Partial(p, 1), "%24", "$") == Partial(p, 2)
    ensures Replace(Partial(p, 2), "%_%_", "__") == Partial(p, 3)
  {
    PartialStep(p, 0, ".", "%2E");
    PartialStep(p, 1, "$", "%24");
    PartialStep(p, 2, "__", "%_%_");
  }

  lemma RestoreFused(p: string)
    requires '%' !in p
    ensures RestoreAll(Fused(p)) == p
  {
    PartialEnds(p);
    PartialSteps(p);
  }

  lemma HeadStays(rest: string)
    requires rest == "" || rest[0] != '%'
    ensures Replace("%_" + rest, "%_%_", "__") == "%_" + Replace(rest, "%_%_", "__")
  {
    var v := "%_" + rest;
    assert v[1..] == "_" + rest && v[1..][1..] == rest;
    assert |v| >= 4 ==> v[..4][2] == rest[0];
    assert |v[1..]| >= 4 ==> v[1..][..4][0] == '_';
    assert Replace(v[1..], "%_%_", "__") == "_" + Replace(rest, "%_%_", "__");
  }

  lemma RestoreBehindHead(f: string)
    requires var g := Replace(Replace(f, "%2E", "."), "%24", "$"); g == "" || g[0] != '%'
    ensures RestoreAll("%_" + f) == "%_" + RestoreAll(f)
  {
    InertHead();
    var f1 := Replace(f, "%2E", ".");
    ReplaceInert("%_", f, "%2E", ".");
    ReplaceInert("%_", f1, "%24", "$");
    HeadStays(Replace(f1, "%24", "$"));
  }

  lemma PartialHead(p: string)
    requires '%' !in p && !StartsWith(p, "_")
    ensures Partial(p, 2) == "" || Partial(p, 2)[0] != '%'
  {
    assert p != "" ==> p[..1] == [p[0]];
  }

  /** All codes of one part undone, behind the code of a leading underscore. */
  lemma RestoreHeaded(p: string)
    requires '%' !in p && !StartsWith(p, "_")
    ensures RestoreAll("%_" + Fused(p)) == "%_" + p
  {
    PartialEnds(p);
    PartialSteps(p);
    PartialHead(p);
    RestoreBehindHead(Partial(p, 0));
  }

  /* ---------- The round trip, injectivity and the shape of the output ---------- */

  lemma {:induction false} RestoreParts(parts: seq<string>)
    requires Free(parts, '%')
    ensures MapRestore(MapFused(parts)) == parts
  {
    forall k | 0 <= k < |parts| ensures RestoreAll(MapFused(parts)[k]) == parts[k] {
      RestoreFused(parts[k]);
    }
  }

  /** Reading back what was written, before the head is looked at. */
  lemma JoinedOfFused(key: string)
    ensures Joined(Fused(key)) == key
  {
    SplitOfFused(key);
    SplitIsFree(key, '%');
    RestoreParts(Split(key, '%'));
    JoinOfSplit(key, '%');
  }

  lemma MapRestoreCons(first: string, rest: seq<string>)
    ensures MapRestore([first] + rest) == [RestoreAll(first)] + MapRestore(rest)
  {
  }

  lemma RestoreHeadedParts(ps: seq<string>)
    requires ps != [] && Free(ps, '%') && !StartsWith(ps[0], "_")
    ensures var fs := MapFused(ps); MapRestore(["%_" + fs[0]] + fs[1..]) == ["%_" + ps[0]] + ps[1..]
  {
    var fs := MapFused(ps);
    RestoreHeaded(ps[0]);
    assert Free(ps[1..], '%');
    RestoreParts(ps[1..]);
    MapRestoreCons("%_" + fs[0], fs[1..]);
  }

  lemma JoinHeaded(ps: seq<string>)
    requires ps != []
    ensures Join(["%_" + ps[0]] + ps[1..], '%') == "%_" + Join(ps, '%')
  {
    assert (["%_" + ps[0]] + ps[1..])[1..] == ps[1..];
  }

  lemma JoinedOfHeaded(key: string)
    requires !StartsWith(key, "_")
    ensures Joined("%_" + Fused(key)) == "%_" + key
  {
    SplitOfFused(key);
    InertHead();
    SplitInert("%_", Fused(key));
    SplitIsFree(key, '%');
    var ps := Split(key, '%');
    FirstPart(key);
    assert ps[0] != "" ==> ps[0][..1] == [ps[0][0]] && key[..1] == [key[0]];
    RestoreHeadedParts(ps);
    JoinOfSplit(key, '%');
    JoinHeaded(ps);
  }

  /** A single leading underscore: the only keys whose head is coded. */
  predicate SingleHead(key: string) {
    StartsWith(key, "_") && !StartsWith(key, "__")
  }

  lemma JoinedOfEscaped(key: string)
    ensures Joined(Escaped(key)) == if SingleHead(key) then "%_" + key[1..] else key
  {
    EscapedIsFused(key);
    FusedHead(key);
    if SingleHead(key) {
      assert ("_" + Fused(key[1..]))[1..] == Fused(key[1..]);
      assert |key| >= 2 ==> key[..2] == [key[0], key[1]] && key[1..][..1] == [key[1]];
      JoinedOfHeaded(key[1..]);
    } else {
      JoinedOfFused(key);
    }
  }

  lemma UnfixHeaded(rest: string)
    ensures UnfixHead("%_" + rest) == "_" + rest
  {
    assert ("%_" + rest)[2..] == rest;
  }

  lemma PercentOff(key: string)
    requires StartsWith(key, "%_")
    ensures UnfixHead(key) == key[1..] && key[1..] != key
  {
    assert key == "%_" + key[2..];
    UnfixHeaded(key[2..]);
    assert key[1..] == "_" + key[2..];
    assert |key[1..]| < |key|;
  }

  lemma HeadOff(key: string)
    requires StartsWith(key, "_")
    ensures UnfixHead("%_" + key[1..]) == key && !StartsWith(key, "%_")
  {
    UnfixHeaded(key[1..]);
    assert key == "_" + key[1..];
    var c := key[0];
    assert "%_"[0] != c;
  }

  /** Unescaping an escaped key gives it back, except that a key starting with `%_` loses its `%`. */
  lemma RoundTrip(key: string)
    ensures Unescaped(Escaped(key)) == if StartsWith(key, "%_") then key[1..] else key
    ensures Unescaped(Escaped(key)) == key <==> !StartsWith(key, "%_")
  {
    JoinedOfEscaped(key);
    if SingleHead(key) {
      HeadOff(key);
    } else if StartsWith(key, "%_") {
      PercentOff(key);
    }
  }

  lemma FusedExample()
    ensures Fused("%_a") == "%%_a"
  {
    FusedOne('a', "", "");
    assert (['_'] + "a")[..2][1] == 'a' && (['%'] + "_a")[..2][0] == '%';
    FusedOne('_', "a", "a");
    FusedOne('%', "_a", "_a");
  }

  /** A key for which the round trip fails. */
  lemma RoundTripFails()
    ensures Escaped("%_a") == "%%_a" && Unescaped("%%_a") == "_a"
  {
    EscapedIsFused("%_a");
    FusedExample();
    RoundTrip("%_a");
  }

  lemma HeadsApart(a: string, b: string)
    requires SingleHead(a) && !SingleHead(b) && b == "%_" + a[1..]
    ensures Escaped(a) != Escaped(b)
  {
    EscapedIsFused(a);
    EscapedIsFused(b);
    FusedHead(a);
    FusedHead(b);
    assert Escaped(a) == "%_" + ("_" + Fused(a[1..]))[1..];
    assert Escaped(b)[..2] == "%%" by { assert b[0] == '%'; }
  }

  /** Distinct keys never collide. */
  lemma EscapedInjective(a: string, b: string)
    requires Escaped(a) == Escaped(b)
    ensures a == b
  {
    JoinedOfEscaped(a);
    JoinedOfEscaped(b);
    if SingleHead(a) && SingleHead(b) {
      assert a == "_" + ("%_" + a[1..])[2..] && b == "_" + ("%_" + b[1..])[2..];
    } else if SingleHead(a) {
      HeadsApart(a, b);
    } else if SingleHead(b) {
      HeadsApart(b, a);
    }
  }

  lemma {:induction false} FusedIsSafe(key: string)
    ensures '.' !in Fused(key) && '$' !in Fused(key)
  {
    if key == "" {
    } else if StartsWith(key, "__") {
      FusedIsSafe(key[2..]);
    } else {
      FusedIsSafe(key[1..]);
    }
  }

  /** The output has no `.` and no `$` and never starts with an underscore. */
  lemma EscapedIsSafe(key: string)
    ensures '.' !in Escaped(key) && '$' !in Escaped(key) && !StartsWith(Escaped(key), "_")
  {
    EscapedIsFused(key);
    FusedIsSafe(key);
  }

  /* ---------- Where a double underscore survives ---------- */

  ghost predicate HasDouble(s: string) {
    exists k :: 0 <= k < |s| - 1 && s[k] == '_' && s[k + 1] == '_'
  }

  /** `[i, j)` is a maximal run of underscores of `s`. */
  predicate IsRun(s: string, i: nat, j: nat) {
    && i < j <= |s|
    && (forall k :: i <= k < j ==> s[k] == '_')
    && (i == 0 || s[i - 1] != '_')
    && (j == |s| || s[j] != '_')
  }

  predicate OddRunAt(s: string, i: nat, j: nat) {
    IsRun(s, i, j) && j - i >= 3 && (j - i) % 2 == 1
  }

  /** Some maximal run of underscores has an odd length of three or more. */
  ghost predicate HasOddRun(s: string) {
    exists i: nat, j: nat :: OddRunAt(s, i, j)
  }

  /** The length of the leading run of underscores. */
  function Run(s: string): (r: nat)
    ensures r <= |s| && (forall k :: 0 <= k < r ==> s[k] == '_') && (r == |s| || s[r] != '_')
  {
    if s != "" && s[0] == '_' then 1 + Run(s[1..]) else 0
  }

  function Pairs(n: nat): (s: string)
    ensures n > 0 ==> s != "" && s[0] == '%' && s[|s| - 1] == '_'
  {
    if n == 0 then "" else "%_%_" + Pairs(n - 1)
  }

  lemma Regroup(a: string, b: string, c: string, d: string)
    ensures a + (b + c + d) == (a + b) + c + d
  {
  }

  lemma MorePairs(r: nat, t: string, f: string)
    requires r >= 2
    ensures "%_%_" + (Pairs((r - 2) / 2) + t + f) == Pairs(r / 2) + t + f
  {
    assert (r - 2) / 2 == r / 2 - 1;
    Regroup("%_%_", Pairs(r / 2 - 1), t, f);
  }

  lemma SingleUnderscore(key: string)
    requires key != "" && key[0] == '_' && (|key| == 1 || key[1] != '_')
    ensures Fused(key) == "_" + Fused(key[1..])
  {
    assert key == ['_'] + key[1..];
    FusedOne('_', key[1..], key[1..]);
  }

  lemma TwoUnderscores(key: string)
    requires |key| >= 2 && key[0] == '_' && key[1] == '_'
    ensures Fused(key) == "%_%_" + Fused(key[2..])
  {
    assert key == "__" + key[2..];
    FusedPair(key[2..]);
  }

  /** What a leading run of underscores becomes. */
  function Runs(r: nat): string {
    Pairs(r / 2) + if r % 2 == 1 then "_" else ""
  }

  lemma RunsGrow(r: nat, f: string)
    requires r >= 2
    ensures "%_%_" + (Runs(r - 2) + f) == Runs(r) + f
  {
    assert (r - 2) % 2 == r % 2;
    MorePairs(r, if r % 2 == 1 then "_" else "", f);
  }

  lemma RunsStart(f: string)
    ensures Runs(0) + f == f && Runs(1) + f == "_" + f
  {
    assert Pairs(0) == "";
    assert Runs(0) == "" && Runs(1) == "_";
  }

  /** The pass over a key deals with its leading run of `r` underscores first. */
  lemma {:induction false} FusedRun(key: string, r: nat)
    requires r <= |key| && (forall k :: 0 <= k < r ==> key[k] == '_') && (r == |key| || key[r] != '_')
    ensures Fused(key) == Runs(r) + Fused(key[r..])
    decreases r
  {
    RunsStart(Fused(key[r..]));
    if r >= 2 {
      TwoUnderscores(key);
      FusedRun(key[2..], r - 2);
      DropDrop(key, 2, r - 2);
      RunsGrow(r, Fused(key[r..]));
    } else if r == 1 {
      SingleUnderscore(key);
    } else {
      assert key[r..] == key;
    }
  }

  lemma DoubleConcat(a: string, b: string)
    ensures HasDouble(a + b) <==>
      HasDouble(a) || HasDouble(b) || (a != "" && b != "" && a[|a| - 1] == '_' && b[0] == '_')
  {
    var s := a + b;
    if HasDouble(a) {
      var k :| 0 <= k < |a| - 1 && a[k] == '_' && a[k + 1] == '_';
      assert s[k] == '_' && s[k + 1] == '_';
    }
    if HasDouble(b) {
      var k :| 0 <= k < |b| - 1 && b[k] == '_' && b[k + 1] == '_';
      assert s[|a| + k] == '_' && s[|a| + k + 1] == '_';
    }
    if a != "" && b != "" && a[|a| - 1] == '_' && b[0] == '_' {
      assert s[|a| - 1] == '_' && s[|a| - 1 + 1] == '_';
    }
    if HasDouble(s) {
      var k :| 0 <= k < |s| - 1 && s[k] == '_' && s[k + 1] == '_';
      if k + 1 < |a| {
        assert a[k] == '_' && a[k + 1] == '_';
      } else if k >= |a| {
        assert b[k - |a|] == '_' && b[k - |a| + 1] == '_';
      }
    }
  }

  lemma {:induction false} PairsHaveNoDouble(n: nat)
    ensures !HasDouble(Pairs(n))
  {
    if n > 0 {
      PairsHaveNoDouble(n - 1);
      DoubleConcat("%_%_", Pairs(n - 1));
    }
  }

  /** A run contributes a double underscore exactly when its length is odd and at least three. */
  lemma DoubleAfterRun(key: string)
    ensures var r := Run(key);
      HasDouble(Fused(key)) <==> (r % 2 == 1 && r >= 3) || HasDouble(Fused(key[r..]))
  {
    var r := Run(key);
    var rest := Fused(key[r..]);
    FusedRun(key, r);
    assert !StartsWith(key[r..], "_");
    FusedHead(key[r..]);
    assert rest != "" ==> rest[..1] == [rest[0]] && rest[0] != '_';
    PairsHaveNoDouble(r / 2);
    var tail := if r % 2 == 1 then "_" else "";
    DoubleConcat(Pairs(r / 2), tail);
    DoubleConcat(Pairs(r / 2) + tail, rest);
  }

  lemma LeadingRun(key: string, i: nat, j: nat)
    requires IsRun(key, i, j) && i < Run(key)
    ensures i == 0 && j == Run(key)
  {
  }

  lemma ShiftRun(key: string, r: nat, i: nat, j: nat)
    requires r == Run(key)
    ensures IsRun(key[r..], i, j) <==> IsRun(key, i + r, j + r)
  {
    if IsRun(key, i + r, j + r) {
      forall k | i <= k < j ensures key[r..][k] == '_' {
        assert key[k + r] == '_';
      }
    }
    if IsRun(key[r..], i, j) {
      forall k | i + r <= k < j + r ensures key[k] == '_' {
        assert key[r..][k - r] == '_';
      }
    }
  }

  lemma OddRunLater(key: string)
    requires HasOddRun(key)
    ensures (Run(key) % 2 == 1 && Run(key) >= 3) || HasOddRun(key[Run(key)..])
  {
    var r := Run(key);
    var i: nat, j: nat :| OddRunAt(key, i, j);
    if i < r {
      LeadingRun(key, i, j);
    } else {
      ShiftRun(key, r, i - r, j - r);
      assert OddRunAt(key[r..], i - r, j - r);
    }
  }

  lemma OddRunAfterRun(key: string)
    ensures var r := Run(key);
      HasOddRun(key) <==> (r % 2 == 1 && r >= 3) || HasOddRun(key[r..])
  {
    var r := Run(key);
    if r % 2 == 1 && r >= 3 {
      assert OddRunAt(key, 0, r);
    }
    if HasOddRun(key[r..]) {
      var i: nat, j: nat :| OddRunAt(key[r..], i, j);
      ShiftRun(key, r, i, j);
      assert OddRunAt(key, i + r, j + r);
    }
    if HasOddRun(key) {
      OddRunLater(key);
    }
  }

  lemma CodeHasNoDouble(c: char)
    requires c != '_'
    ensures !HasDouble(Code(c)) && Code(c)[|Code(c)| - 1] != '_'
  {
  }

  lemma RunBehind(key: string, i: nat, j: nat)
    requires key != "" && key[0] != '_'
    ensures IsRun(key[1..], i, j) <==> IsRun(key, i + 1, j + 1)
  {
    if IsRun(key, i + 1, j + 1) {
      forall k | i <= k < j ensures key[1..][k] == '_' {
        assert key[k + 1] == '_';
      }
    }
    if IsRun(key[1..], i, j) {
      forall k | i + 1 <= k < j + 1 ensures key[k] == '_' {
        assert key[1..][k - 1] == '_';
      }
    }
  }

  lemma SkipOther(key: string)
    requires key != "" && key[0] != '_'
    ensures HasOddRun(key) <==> HasOddRun(key[1..])
  {
    if HasOddRun(key[1..]) {
      var i: nat, j: nat :| OddRunAt(key[1..], i, j);
      RunBehind(key, i, j);
      assert OddRunAt(key, i + 1, j + 1);
    }
    if HasOddRun(key) {
      var i: nat, j: nat :| OddRunAt(key, i, j);
      assert key[i] == '_';
      RunBehind(key, i - 1, j - 1);
      assert OddRunAt(key[1..], i - 1, j - 1);
    }
  }

  lemma FusedOther(key: string)
    requires key != "" && key[0] != '_'
    ensures Fused(key) == Code(key[0]) + Fused(key[1..])
  {
    assert !StartsWith(key, "__");
  }

  lemma {:induction false} DoubleIffOddRun(key: string)
    ensures HasDouble(Fused(key)) <==> HasOddRun(key)
    decreases |key|
  {
    var r := Run(key);
    DoubleAfterRun(key);
    OddRunAfterRun(key);
    if r > 0 {
      DoubleIffOddRun(key[r..]);
    } else if key != "" {
      DoubleIffOddRun(key[1..]);
      DoubleConcat(Code(key[0]), Fused(key[1..]));
      FusedOther(key);
      CodeHasNoDouble(key[0]);
      SkipOther(key);
    }
  }

  /** The output has a double underscore exactly when some run of the key is odd and longer than one. */
  lemma EscapedDouble(key: string)
    ensures HasDouble(Escaped(key)) <==> HasOddRun(key)
  {
    EscapedIsFused(key);
    DoubleIffOddRun(key);
    FusedHead(key);
    if SingleHead(key) {
      var rest := Fused(key[1..]);
      assert ("_" + rest)[1..] == rest;
      assert |key| >= 2 ==> key[..2] == [key[0], key[1]] && key[1..][..1] == [key[1]];
      FusedHead(key[1..]);
      assert rest != "" ==> rest[..1] == [rest[0]] && rest[0] != '_';
      DoubleConcat("_", rest);
      DoubleConcat("%_", rest);
    }
  }
}
