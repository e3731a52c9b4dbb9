/**
 * The handful of ECMAScript string operations the extension relies on,
 * written out: `trimEnd`, `split` on a single separator, `join`, and the
 * line decomposition that a multiline regular expression sees.
 */
module JsText {

  /**
   * The characters `String.prototype.trimEnd` removes: the ECMAScript
   * WhiteSpace production (tab, vertical tab, form feed, space, no-break
   * space, zero width no-break space and the Unicode space separators) and
   * the LineTerminator production (line feed, carriage return, line
   * separator, paragraph separator).
   */
  predicate IsTrimmable(c: char) {
    c == '\t' || c == '\n' || c == '\U{B}' || c == '\U{C}' || c == '\r' || c == ' '
    || c == '\U{A0}' || c == '\U{1680}' || ('\U{2000}' <= c <= '\U{200A}')
    || c == '\U{2028}' || c == '\U{2029}' || c == '\U{202F}' || c == '\U{205F}'
    || c == '\U{3000}' || c == '\U{FEFF}'
  }

  /** `s.trimEnd()`: the longest prefix of `s` that does not end in a trimmable character. */
  function TrimEnd(s: string): (r: string)
    ensures r <= s
    ensures r == [] || !IsTrimmable(r[|r| - 1])
    ensures forall i :: |r| <= i < |s| ==> IsTrimmable(s[i])
  {
    if s != [] && IsTrimmable(s[|s| - 1]) then TrimEnd(s[..|s| - 1]) else s
  }

  /** Trimming a string that does not end in whitespace, followed by whitespace, gives the string. */
  lemma {:induction false} TrimEndSuffix(s: string, trailer: string)
    requires s == [] || !IsTrimmable(s[|s| - 1])
    requires forall i :: 0 <= i < |trailer| ==> IsTrimmable(trailer[i])
    ensures TrimEnd(s + trailer) == s
    decreases |trailer|
  {
    if trailer == [] {
      assert s + trailer == s;
    } else {
      var t := trailer[..|trailer| - 1];
      assert (s + trailer)[..|s + trailer| - 1] == s + t;
      TrimEndSuffix(s, t);
    }
  }

  /** The index of the first character of `s` in `seps`, or `|s|` when there is none. */
  function FirstIn(s: string, seps: set<char>): (k: nat)
    ensures k <= |s|
    ensures forall i :: 0 <= i < k ==> s[i] !in seps
    ensures k < |s| ==> s[k] in seps
  {
    if s == [] || s[0] in seps then 0 else 1 + FirstIn(s[1..], seps)
  }

  /**
   * The pieces of `s` between separator characters, as `s.split(c)` gives
   * them for `seps == {c}`: an empty string yields one empty piece, and two
   * adjacent separators yield an empty piece between them.
   */
  function SplitOn(s: string, seps: set<char>): (pieces: seq<string>)
    ensures |pieces| >= 1
    ensures forall j, i :: 0 <= j < |pieces| && 0 <= i < |pieces[j]| ==> pieces[j][i] !in seps
    decreases |s|
  {
    var k := FirstIn(s, seps);
    if k == |s| then [s] else [s[..k]] + SplitOn(s[k + 1..], seps)
  }

  /** `xs.join(sep)`. */
  function Join(xs: seq<string>, sep: string): string {
    if |xs| == 0 then ""
    else if |xs| == 1 then xs[0]
    else xs[0] + sep + Join(xs[1..], sep)
  }

  /** No string of `xs` contains the character `c`. */
  predicate NoneContains(xs: seq<string>, c: char) {
    forall j :: 0 <= j < |xs| ==> c !in xs[j]
  }

  /** A concatenation of lists is free of `c` exactly when both lists are. */
  lemma NoneContainsConcat(xs: seq<string>, ys: seq<string>, c: char)
    ensures NoneContains(xs + ys, c) <==> NoneContains(xs, c) && NoneContains(ys, c)
  {
    if NoneContains(xs + ys, c) {
      forall j | 0 <= j < |xs| ensures c !in xs[j] {
        assert (xs + ys)[j] == xs[j];
      }
      forall j | 0 <= j < |ys| ensures c !in ys[j] {
        assert (xs + ys)[|xs| + j] == ys[j];
      }
    }
  }

  /** Appending one more piece to a non-empty list appends the separator and that piece. */
  lemma {:induction false} JoinSnoc(xs: seq<string>, y: string, sep: string)
    requires |xs| >= 1
    ensures Join(xs + [y], sep) == Join(xs, sep) + sep + y
  {
    if |xs| == 1 {
      assert xs + [y] == [xs[0], y];
      assert [xs[0], y][1..] == [y];
    } else {
      assert (xs + [y])[1..] == xs[1..] + [y];
      JoinSnoc(xs[1..], y, sep);
    }
  }

  /** A string without separators is a single piece. */
  lemma SplitOnWhole(s: string, seps: set<char>)
    requires forall i :: 0 <= i < |s| ==> s[i] !in seps
    ensures SplitOn(s, seps) == [s]
  {
  }

  /** The first separator of `a + [c] + b` lies within `a`, or is `c` itself. */
  lemma {:induction false} FirstInConcat(a: string, c: char, b: string, seps: set<char>)
    requires c in seps
    ensures FirstIn(a + [c] + b, seps) == FirstIn(a, seps)
    decreases |a|
  {
    if a != [] && a[0] !in seps {
      assert (a + [c] + b)[1..] == a[1..] + [c] + b;
      FirstInConcat(a[1..], c, b, seps);
    }
  }

  /** Splitting at the first separator: the piece before it, then the pieces of the rest. */
  lemma SplitOnUnfold(s: string, seps: set<char>, k: nat, head: string, rest: string)
    requires k == FirstIn(s, seps) && k < |s|
    requires head == s[..k] && rest == s[k + 1..]
    ensures SplitOn(s, seps) == [head] + SplitOn(rest, seps)
  {
  }

  /** A separator between `a` and `b` splits exactly between their pieces. */
  lemma {:induction false} SplitOnConcat(a: string, c: char, b: string, seps: set<char>)
    requires c in seps
    ensures SplitOn(a + [c] + b, seps) == SplitOn(a, seps) + SplitOn(b, seps)
    decreases |a|
  {
    var s := a + [c] + b;
    var k := FirstIn(a, seps);
    FirstInConcat(a, c, b, seps);
    if k == |a| {
      assert s[..k] == a && s[k + 1..] == b;
      SplitOnUnfold(s, seps, k, a, b);
    } else {
      var rest := a[k + 1..];
      assert s[..k] == a[..k];
      assert s[k + 1..] == rest + [c] + b;
      SplitOnUnfold(s, seps, k, a[..k], rest + [c] + b);
      SplitOnUnfold(a, seps, k, a[..k], rest);
      SplitOnConcat(rest, c, b, seps);
    }
  }

  /** Joining the pieces of a split with the same separator gives the string back. */
  lemma {:induction false} JoinSplitOn(s: string, c: char)
    ensures Join(SplitOn(s, {c}), [c]) == s
    decreases |s|
  {
    var k := FirstIn(s, {c});
    if k < |s| {
      var rest := SplitOn(s[k + 1..], {c});
      JoinSplitOn(s[k + 1..], c);
      assert SplitOn(s, {c}) == [s[..k]] + rest;
      assert ([s[..k]] + rest)[1..] == rest;
      assert s == s[..k] + [c] + s[k + 1..];
    }
  }

  /** Splitting a join gives the pieces back, when no piece contains the separator. */
  lemma {:induction false} SplitOnJoin(xs: seq<string>, c: char)
    requires |xs| >= 1 && NoneContains(xs, c)
    ensures SplitOn(Join(xs, [c]), {c}) == xs
    decreases |xs|
  {
    if |xs| == 1 {
      SplitOnWhole(xs[0], {c});
    } else {
      var s := Join(xs, [c]);
      var tail := Join(xs[1..], [c]);
      assert s == xs[0] + [c] + tail;
      assert s[..|xs[0]|] == xs[0] && s[|xs[0]| + 1..] == tail;
      FirstInConcat(xs[0], c, tail, {c});
      SplitOnUnfold(s, {c}, |xs[0]|, xs[0], tail);
      SplitOnJoin(xs[1..], c);
      assert xs == [xs[0]] + xs[1..];
    }
  }
}
