/**
 * The bundle command and the guard-token scan behind it: every line of the
 * active document that is exactly `// codesnip-guard: ` followed by one or
 * more word characters excludes that token from the bundle, through one
 * ` -e="<token>"` argument per matching line.
 *
 * The extension finds these lines with the global multiline regular
 * expression `^// codesnip-guard: (\w+)$`. Under the multiline flag `^` and
 * `$` match at the start and end of the input and next to every line
 * terminator (line feed, carriage return, line separator, paragraph
 * separator), and `\w` is `[A-Za-z0-9_]`; a match spans one whole line, so
 * successive matches are the matching lines in document order. The model
 * scans the lines explicitly.
 */
module Guards {
  import opened Wrappers
  import opened JsText
  import opened Commands

  /** The characters at which a multiline `^` or `$` matches. */
  const LineTerminators: set<char> := {'\n', '\r', '\U{2028}', '\U{2029}'}

  /** The literal text before the token. */
  const GuardMarker := "// codesnip-guard: "

  /** `\w` without the unicode or ignore-case flags. */
  predicate IsWordChar(c: char) {
    'a' <= c <= 'z' || 'A' <= c <= 'Z' || '0' <= c <= '9' || c == '_'
  }

  /** A token `\w+` can match. */
  predicate IsWord(t: string) {
    |t| >= 1 && forall i :: 0 <= i < |t| ==> IsWordChar(t[i])
  }

  /** The lines of a document, as the multiline anchors delimit them. */
  function Lines(text: string): (lines: seq<string>)
    ensures |lines| >= 1
    ensures forall j, i :: 0 <= j < |lines| && 0 <= i < |lines[j]| ==> lines[j][i] !in LineTerminators
  {
    SplitOn(text, LineTerminators)
  }

  /** The captured token when the whole line matches `// codesnip-guard: (\w+)`. */
  function GuardToken(line: string): (r: Option<string>)
    ensures r.Some? ==> line == GuardMarker + r.value && IsWord(r.value)
  {
    var n := |GuardMarker|;
    if n < |line| && line[..n] == GuardMarker && IsWord(line[n..]) then Some(line[n..]) else None
  }

  /** The token list of a single line. */
  function TokenOfLine(line: string): seq<string> {
    match GuardToken(line)
    case Some(t) => [t]
    case None => []
  }

  /** The tokens of the matching lines, in order, duplicates kept. */
  function TokensOfLines(lines: seq<string>): (tokens: seq<string>)
    ensures |tokens| <= |lines|
    ensures forall j :: 0 <= j < |tokens| ==> IsWord(tokens[j]) && GuardMarker + tokens[j] in lines
  {
    if lines == [] then [] else TokenOfLine(lines[0]) + TokensOfLines(lines[1..])
  }

  /** The tokens `regex.exec` captures, one per matching line, in document order. */
  function GuardTokens(text: string): (tokens: seq<string>)
    ensures |tokens| <= |Lines(text)|
    ensures forall j :: 0 <= j < |tokens| ==> IsWord(tokens[j]) && GuardMarker + tokens[j] in Lines(text)
  {
    TokensOfLines(Lines(text))
  }

  /** The tokens of the document, or none when no editor is active. */
  function TokensOf(text: Option<string>): seq<string> {
    match text
    case Some(t) => GuardTokens(t)
    case None => []
  }

  /** One ` -e="<token>"` word per token, in order. */
  function ExclusionFlags(tokens: seq<string>): (words: seq<string>)
    ensures |words| == |tokens|
    ensures forall i :: 0 <= i < |tokens| ==> words[i] == "-e=" + Quoted(tokens[i])
  {
    seq(|tokens|, i requires 0 <= i < |tokens| => "-e=" + Quoted(tokens[i]))
  }

  /** The words of the bundle command for snippet `name`, excluding `tokens`. */
  function BundleWords(cacheFile: string, name: string, tokens: seq<string>): seq<string> {
    UseCacheWords(cacheFile) + ["bundle", Quoted(name)] + ExclusionFlags(tokens)
  }

  /**
   * The bundle command (`cmd` in the quick-pick callback): the use-cache
   * prefix, `bundle "<name>"`, then one exclusion per guard line of the
   * active document, found by scanning the text line by line.
   */
  method BundleCommand(cacheFile: string, name: string, text: Option<string>) returns (cmd: string)
    ensures cmd == Join(BundleWords(cacheFile, name, TokensOf(text)), " ")
  {
    ghost var words := UseCacheWords(cacheFile);
    cmd := UseCacheCommand(cacheFile);
    cmd, words := AppendWord(cmd, words, "bundle");
    cmd, words := AppendWord(cmd, words, Quoted(name));
    assert words == BundleWords(cacheFile, name, []);
    if text.Some? {
      cmd := AppendGuards(cmd, cacheFile, name, text.value);
    }
  }

  /**
   * The `regex.exec` loop: appends one exclusion per guard line of `s`,
   * taking the lines one at a time from the start of the text.
   */
  method AppendGuards(cmd: string, cacheFile: string, name: string, s: string) returns (out: string)
    requires cmd == Join(BundleWords(cacheFile, name, []), " ")
    ensures out == Join(BundleWords(cacheFile, name, GuardTokens(s)), " ")
  {
    out := cmd;
    ghost var found: seq<string> := [];
    var rest := s;
    while true
      invariant found + GuardTokens(rest) == GuardTokens(s)
      invariant out == Join(BundleWords(cacheFile, name, found), " ")
      decreases |rest|
    {
      var end := FirstIn(rest, LineTerminators);
      var line := rest[..end];
      NextLine(rest, end, line, found);
      out, found := AppendGuard(out, cacheFile, name, found, line);
      if end == |rest| {
        return;
      }
      rest := rest[end + 1..];
    }
  }

  /** Appends the exclusion of `line`'s token, if the line is a guard line. */
  method AppendGuard(cmd: string, cacheFile: string, name: string, ghost found: seq<string>, line: string)
    returns (out: string, ghost outFound: seq<string>)
    requires cmd == Join(BundleWords(cacheFile, name, found), " ")
    ensures outFound == found + TokenOfLine(line)
    ensures out == Join(BundleWords(cacheFile, name, outFound), " ")
  {
    out, outFound := cmd, found;
    match GuardToken(line) {
      case Some(tok) =>
        AppendExclusion(cacheFile, name, found, tok);
        JoinSnoc(BundleWords(cacheFile, name, found), "-e=" + Quoted(tok), " ");
        out := cmd + " -e=\"" + tok + "\"";
        outFound := found + [tok];
      case None =>
        assert found + [] == found;
    }
  }

  /**
   * The first line of `rest` contributes its token ahead of the lines
   * after it: the scan's step, stated for tokens `found` already collected.
   */
  lemma NextLine(rest: string, end: nat, line: string, found: seq<string>)
    requires end == FirstIn(rest, LineTerminators) && line == rest[..end]
    ensures end == |rest| ==> found + GuardTokens(rest) == found + TokenOfLine(line)
    ensures end < |rest| ==> found + GuardTokens(rest)
                             == (found + TokenOfLine(line)) + GuardTokens(rest[end + 1..])
  {
    if end == |rest| {
      assert rest == line;
      GuardTokensOfLine(rest);
    } else {
      var tail := rest[end + 1..];
      FirstLine(rest, end, line, tail);
      AppendAssoc(found, TokenOfLine(line), GuardTokens(tail));
    }
  }

  /** Proof step: appending to collected tokens is associative. */
  lemma AppendAssoc(found: seq<string>, t: seq<string>, g: seq<string>)
    ensures found + (t + g) == (found + t) + g
  {
  }

  /** A text with a line terminator at `end`: the line before it, then the lines after it. */
  lemma FirstLine(rest: string, end: nat, line: string, tail: string)
    requires end == FirstIn(rest, LineTerminators) && end < |rest|
    requires line == rest[..end] && tail == rest[end + 1..]
    ensures GuardTokens(rest) == TokenOfLine(line) + GuardTokens(tail)
  {
    SplitOnUnfold(rest, LineTerminators, end, line, tail);
    var lines := [line] + Lines(tail);
    assert lines[0] == line && lines[1..] == Lines(tail);
  }

  /** One more exclusion token adds one more word at the end of the bundle command. */
  lemma AppendExclusion(cacheFile: string, name: string, found: seq<string>, tok: string)
    ensures BundleWords(cacheFile, name, found + [tok])
            == BundleWords(cacheFile, name, found) + ["-e=" + Quoted(tok)]
  {
    assert ExclusionFlags(found + [tok]) == ExclusionFlags(found) + ["-e=" + Quoted(tok)];
  }

  /** A text without line terminators is one line, contributing its own token if it has one. */
  lemma GuardTokensOfLine(line: string)
    requires forall j :: 0 <= j < |line| ==> line[j] !in LineTerminators
    ensures GuardTokens(line) == TokenOfLine(line)
  {
    SplitOnWhole(line, LineTerminators);
    assert Lines(line) == [line];
    assert [line][1..] == [];
    assert TokensOfLines([line]) == TokenOfLine(line) + TokensOfLines([]);
    assert TokenOfLine(line) + [] == TokenOfLine(line);
  }

  /** Tokens of consecutive runs of lines are the tokens of each run, in order. */
  lemma {:induction false} TokensOfLinesConcat(xs: seq<string>, ys: seq<string>)
    ensures TokensOfLines(xs + ys) == TokensOfLines(xs) + TokensOfLines(ys)
    decreases |xs|
  {
    if xs == [] {
      assert xs + ys == ys;
    } else {
      assert (xs + ys)[0] == xs[0] && (xs + ys)[1..] == xs[1..] + ys;
      TokensOfLinesConcat(xs[1..], ys);
    }
  }

  /**
   * A line break between two texts splits their tokens between them:
   * matches are reported in document order and repeated tokens are kept.
   */
  lemma GuardTokensConcat(a: string, t: char, b: string)
    requires t in LineTerminators
    ensures GuardTokens(a + [t] + b) == GuardTokens(a) + GuardTokens(b)
  {
    SplitOnConcat(a, t, b, LineTerminators);
    TokensOfLinesConcat(Lines(a), Lines(b));
  }

  /** Every word after the marker, and nothing else on the line, is a guard token. */
  lemma GuardTokenOfMarker(t: string)
    requires IsWord(t)
    ensures GuardToken(GuardMarker + t) == Some(t)
  {
    var line := GuardMarker + t;
    assert line[..|GuardMarker|] == GuardMarker && line[|GuardMarker|..] == t;
  }

  /**
   * A line that does not start with the marker, such as an indented one or
   * one missing the space after the colon, is not a guard line.
   */
  lemma GuardTokenNeedsMarkerAtStart(line: string)
    requires !(GuardMarker <= line)
    ensures GuardToken(line) == None
  {
  }

  /** A line that ends in a non-word character, such as a trailing space, is not a guard line. */
  lemma GuardTokenNeedsWordAtEnd(line: string)
    requires |line| >= 1 && !IsWordChar(line[|line| - 1])
    ensures GuardToken(line) == None
  {
    var n := |GuardMarker|;
    if n < |line| {
      assert line[n..][|line| - 1 - n] == line[|line| - 1];
    }
  }

  /**
   * Splitting the bundle command on spaces gives its words back when the
   * cache path and the snippet name hold no space: the exclusions never do.
   */
  lemma BundleWordsRecoverable(cacheFile: string, name: string, text: Option<string>)
    requires ' ' !in cacheFile && ' ' !in name
    ensures SplitOn(Join(BundleWords(cacheFile, name, TokensOf(text)), " "), {' '})
            == BundleWords(cacheFile, name, TokensOf(text))
  {
    var tokens := TokensOf(text);
    var words := BundleWords(cacheFile, name, tokens);
    forall j | 0 <= j < |words| ensures ' ' !in words[j] {
      if j >= 5 {
        var t := tokens[j - 5];
        assert words[j] == "-e=\"" + t + "\"";
        assert IsWord(t);
        assert forall k :: 0 <= k < |t| ==> t[k] != ' ';
      } else if j == 2 {
        assert words[j] == "--use-cache=" + cacheFile;
      } else if j == 4 {
        assert words[j] == "\"" + name + "\"";
      }
    }
    SplitOnJoin(words, ' ');
  }

  /** A guard line on its own yields exactly its token. */
  lemma GuardTokensOfGuardLine(t: string)
    requires IsWord(t)
    ensures GuardTokens(GuardMarker + t) == [t]
  {
    var line := GuardMarker + t;
    forall j | 0 <= j < |line| ensures line[j] !in LineTerminators {
      if j < |GuardMarker| {
        assert line[j] == GuardMarker[j];
      } else {
        assert line[j] == t[j - |GuardMarker|];
      }
    }
    GuardTokensOfLine(line);
    GuardTokenOfMarker(t);
  }

  /** Two guard lines give two exclusions, in document order, even when the tokens are equal. */
  lemma TwoGuardLines(t1: string, t2: string)
    requires IsWord(t1) && IsWord(t2)
    ensures GuardTokens(GuardMarker + t1 + "\n" + GuardMarker + t2) == [t1, t2]
  {
    var a, b := GuardMarker + t1, GuardMarker + t2;
    assert GuardMarker + t1 + "\n" + GuardMarker + t2 == a + ['\n'] + b;
    GuardTokensConcat(a, '\n', b);
    GuardTokensOfGuardLine(t1);
    GuardTokensOfGuardLine(t2);
  }
}
