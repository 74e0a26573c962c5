/**
 * The string operations the form relies on: `String.prototype.trim`,
 * `String.prototype.startsWith` and `Array.prototype.join`.
 */
module Text {

  /**
   * The characters `trim` removes: ECMAScript's WhiteSpace (tab, vertical
   * tab, form feed, the byte order mark and every space separator of
   * category Zs) and LineTerminator (line feed, carriage return, line and
   * paragraph separators), section 12.2 and 12.3 of ECMA-262.
   */
  predicate IsWhiteSpace(c: char) {
    c == '\t' || c == '\n' || c == '\U{000B}' || c == '\U{000C}' || c == '\r' || c == ' ' ||
    c == '\U{00A0}' || c == '\U{1680}' || ('\U{2000}' <= c <= '\U{200A}') ||
    c == '\U{2028}' || c == '\U{2029}' || c == '\U{202F}' || c == '\U{205F}' ||
    c == '\U{3000}' || c == '\U{FEFF}'
  }

  predicate AllWhiteSpace(s: string) {
    forall k :: 0 <= k < |s| ==> IsWhiteSpace(s[k])
  }

  /**
   * `String.prototype.trim`: `s` without its leading and its trailing white
   * space. It is empty exactly when `s` is all white space, and otherwise
   * starts and ends with a character that is not.
   */
  function Trim(s: string): (r: string)
    ensures |r| <= |s|
    ensures r == [] <==> AllWhiteSpace(s)
    ensures r != [] ==> !IsWhiteSpace(r[0]) && !IsWhiteSpace(r[|r| - 1])
    decreases |s|
  {
    if |s| > 0 && IsWhiteSpace(s[0]) then
      assert forall k :: 1 <= k < |s| ==> s[1..][k - 1] == s[k];
      Trim(s[1..])
    else if |s| > 0 && IsWhiteSpace(s[|s| - 1]) then
      assert forall k :: 0 <= k < |s| - 1 ==> s[..|s| - 1][k] == s[k];
      Trim(s[..|s| - 1])
    else
      s
  }

  /** White space followed by white space is white space. */
  lemma AllWhiteSpaceConcat(a: string, b: string)
    requires AllWhiteSpace(a) && AllWhiteSpace(b)
    ensures AllWhiteSpace(a + b)
  {
    forall k | 0 <= k < |a + b| ensures IsWhiteSpace((a + b)[k]) {
      if k < |a| { assert (a + b)[k] == a[k]; } else { assert (a + b)[k] == b[k - |a|]; }
    }
  }

  /** Trim's result is a slice of `s` with only white space cut off on either side. */
  lemma {:induction false} TrimSlice(s: string) returns (i: nat, j: nat)
    ensures i <= j <= |s| && Trim(s) == s[i..j]
    ensures AllWhiteSpace(s[..i]) && AllWhiteSpace(s[j..])
    decreases |s|, 1
  {
    if |s| > 0 && IsWhiteSpace(s[0]) {
      i, j := TrimSliceFront(s);
    } else if |s| > 0 && IsWhiteSpace(s[|s| - 1]) {
      i, j := TrimSliceBack(s);
    } else {
      i, j := 0, |s|;
      assert s[0..|s|] == s;
    }
  }

  /** TrimSlice when `s` starts with white space. */
  lemma {:induction false} TrimSliceFront(s: string) returns (i: nat, j: nat)
    requires |s| > 0 && IsWhiteSpace(s[0])
    ensures i <= j <= |s| && Trim(s) == s[i..j]
    ensures AllWhiteSpace(s[..i]) && AllWhiteSpace(s[j..])
    decreases |s|, 0
  {
    var t := s[1..];
    var i', j' := TrimSlice(t);
    i, j := i' + 1, j' + 1;
    assert t[i'..j'] == s[i..j];
    assert s[..i] == [s[0]] + t[..i'];
    AllWhiteSpaceConcat([s[0]], t[..i']);
    assert s[j..] == t[j'..];
  }

  /** TrimSlice when `s` ends, but does not start, with white space. */
  lemma {:induction false} TrimSliceBack(s: string) returns (i: nat, j: nat)
    requires |s| > 0 && !IsWhiteSpace(s[0]) && IsWhiteSpace(s[|s| - 1])
    ensures i <= j <= |s| && Trim(s) == s[i..j]
    ensures AllWhiteSpace(s[..i]) && AllWhiteSpace(s[j..])
    decreases |s|, 0
  {
    var t := s[..|s| - 1];
    var i', j' := TrimSlice(t);
    i, j := i', j';
    assert t[i'..j'] == s[i..j];
    assert s[..i] == t[..i'];
    assert s[j..] == t[j'..] + [s[|s| - 1]];
    AllWhiteSpaceConcat(t[j'..], [s[|s| - 1]]);
  }

  /**
   * Trim's result is determined by its three properties: whenever `s` is a
   * white-space prefix, a core that is empty or has non-white-space ends, and
   * a white-space suffix, trimming `s` gives that core.
   */
  lemma {:induction false} TrimUnique(s: string, pre: string, core: string, post: string)
    requires s == pre + core + post && AllWhiteSpace(pre) && AllWhiteSpace(post)
    requires core != [] ==> !IsWhiteSpace(core[0]) && !IsWhiteSpace(core[|core| - 1])
    ensures Trim(s) == core
    decreases |s|
  {
    if core == [] {
      assert s == pre + post;
      AllWhiteSpaceConcat(pre, post);
    } else if pre != [] {
      DropFirst(pre, core, post);
      assert Trim(s) == Trim(s[1..]);
      TrimUnique(s[1..], pre[1..], core, post);
    } else if post != [] {
      DropLast(pre, core, post);
      assert Trim(s) == Trim(s[..|s| - 1]);
      TrimUnique(s[..|s| - 1], pre, core, post[..|post| - 1]);
    } else {
      assert s == core;
    }
  }

  /** Dropping the first character of `pre + core + post` drops it from `pre`. */
  lemma DropFirst(pre: string, core: string, post: string)
    requires pre != []
    ensures (pre + core + post)[0] == pre[0]
    ensures (pre + core + post)[1..] == pre[1..] + core + post
  {
  }

  /** Dropping the last character of `pre + core + post`, with `core` not empty, drops it from `post`. */
  lemma DropLast(pre: string, core: string, post: string)
    requires core != [] && post != []
    ensures var s := pre + core + post;
      s[|pre|] == core[0] && s[|s| - 1] == post[|post| - 1] && s[..|s| - 1] == pre + core + post[..|post| - 1]
  {
    var s := pre + core + post;
    assert s[..|s| - 1] == pre + core + post[..|post| - 1];
  }

  /** Trimming twice is trimming once. */
  lemma TrimIdempotent(s: string)
    ensures Trim(Trim(s)) == Trim(s)
  {
    var r := Trim(s);
    assert r == [] + r + [];
    TrimUnique(r, [], r, []);
  }

  /** Cutting `s` at `i` and `j` and moving the cut-off parts outward keeps the whole. */
  lemma Regroup(pre: string, s: string, post: string, i: nat, j: nat)
    requires i <= j <= |s|
    ensures pre + s + post == (pre + s[..i]) + s[i..j] + (s[j..] + post)
  {
    assert s == s[..i] + s[i..j] + s[j..];
  }

  /** White space around a string does not change its trimmed value. */
  lemma TrimIgnoresPadding(pre: string, s: string, post: string)
    requires AllWhiteSpace(pre) && AllWhiteSpace(post)
    ensures Trim(pre + s + post) == Trim(s)
  {
    var i, j := TrimSlice(s);
    var r := s[i..j];
    var a, b := pre + s[..i], s[j..] + post;
    Regroup(pre, s, post, i, j);
    AllWhiteSpaceConcat(pre, s[..i]);
    AllWhiteSpaceConcat(s[j..], post);
    TrimUnique(pre + s + post, a, r, b);
  }

  /** `String.prototype.startsWith`. */
  predicate StartsWith(s: string, prefix: string) {
    |prefix| <= |s| && s[..|prefix|] == prefix
  }

  /** `Array.prototype.join`: the elements with `sep` between neighbours. */
  function Join(xs: seq<string>, sep: string): (r: string)
    ensures |xs| == 1 ==> r == xs[0]
    ensures |xs| == 0 ==> r == ""
    ensures |xs| >= 1 && xs[0] != [] ==> r != []
  {
    if |xs| == 0 then ""
    else if |xs| == 1 then xs[0]
    else xs[0] + sep + Join(xs[1..], sep)
  }

  /** Joining one more element appends the separator and that element: the order of the list is kept. */
  lemma {:induction false} JoinSnoc(xs: seq<string>, x: string, sep: string)
    requires |xs| >= 1
    ensures Join(xs + [x], sep) == Join(xs, sep) + sep + x
  {
    var ys := xs + [x];
    assert ys[0] == xs[0];
    if |xs| == 1 {
      assert ys[1..] == [x];
    } else {
      assert ys[1..] == xs[1..] + [x];
      JoinSnoc(xs[1..], x, sep);
    }
  }

  /** No element of `xs` is empty or contains `c`. */
  predicate NonEmptyFree(xs: seq<string>, c: char) {
    forall i :: 0 <= i < |xs| ==> xs[i] != [] && c !in xs[i]
  }

  /** What follows the first element in the joined string: nothing, or the separator and the rest. */
  function JoinTail(xs: seq<string>, sep: string): (t: string)
    requires |xs| >= 1
    ensures Join(xs, sep) == xs[0] + t
  {
    if |xs| == 1 then "" else sep + Join(xs[1..], sep)
  }

  /** In `a + t`, where `a` is free of `c` and `t` is empty or starts with `c`, the first `c` is at `|a|`. */
  lemma FirstSeparatorAt(a: string, t: string, c: char)
    requires c !in a && (t == [] || t[0] == c)
    ensures forall k :: 0 <= k < |a| ==> (a + t)[k] != c
    ensures |a| < |a + t| ==> (a + t)[|a|] == c
  {
    forall k | 0 <= k < |a| ensures (a + t)[k] != c {
      assert (a + t)[k] == a[k];
    }
  }

  /** The head of such a string is the part before its first `c`, so it is determined. */
  lemma HeadBeforeSeparator(a: string, ta: string, b: string, tb: string, c: char)
    requires c !in a && (ta == [] || ta[0] == c)
    requires c !in b && (tb == [] || tb[0] == c)
    requires a + ta == b + tb
    ensures a == b && ta == tb
  {
    FirstSeparatorAt(a, ta, c);
    FirstSeparatorAt(b, tb, c);
    var s := a + ta;
    assert |a| == |b|;
    assert a == s[..|a|] && b == s[..|b|];
    assert ta == s[|a|..] && tb == s[|b|..];
  }

  /** Dropping the first element keeps a list free of empty elements and of `c`. */
  lemma NonEmptyFreeTail(xs: seq<string>, c: char)
    requires |xs| >= 1 && NonEmptyFree(xs, c)
    ensures NonEmptyFree(xs[1..], c)
  {
    forall i | 0 <= i < |xs[1..]| ensures xs[1..][i] != [] && c !in xs[1..][i] {
      assert xs[1..][i] == xs[i + 1];
    }
  }

  /** Past the separator, the tail of a joined list of two or more is the join of the rest. */
  lemma JoinTailRest(xs: seq<string>, sep: string)
    requires |xs| >= 2
    ensures |sep| <= |JoinTail(xs, sep)| && JoinTail(xs, sep)[|sep|..] == Join(xs[1..], sep)
  {
    assert (sep + Join(xs[1..], sep))[|sep|..] == Join(xs[1..], sep);
  }

  /**
   * Joining is lossless when no element is empty and none contains the
   * separator's first character: the joined string determines the list.
   */
  lemma {:induction false} JoinInjective(xs: seq<string>, ys: seq<string>, sep: string)
    requires sep != [] && NonEmptyFree(xs, sep[0]) && NonEmptyFree(ys, sep[0])
    requires Join(xs, sep) == Join(ys, sep)
    ensures xs == ys
  {
    var c := sep[0];
    if |xs| >= 1 && |ys| >= 1 {
      var tx, ty := JoinTail(xs, sep), JoinTail(ys, sep);
      HeadBeforeSeparator(xs[0], tx, ys[0], ty, c);
      if |xs| >= 2 && |ys| >= 2 {
        JoinTailRest(xs, sep);
        JoinTailRest(ys, sep);
        NonEmptyFreeTail(xs, c);
        NonEmptyFreeTail(ys, c);
        JoinInjective(xs[1..], ys[1..], sep);
        assert xs == [xs[0]] + xs[1..] && ys == [ys[0]] + ys[1..];
      }
    }
  }
}
