/**
 * The command lines the extension hands to the shell: the update-cache
 * command (`getUpdateCacheCommand`), the verify and list commands built
 * inside `activate`, and the parse of the list command's output.
 *
 * Each command is specified by its word list: the command string is those
 * words joined with single spaces. Flag values are not quoted, and the cache
 * file is quoted only in the trailing `cache "<file>"` argument, as in the
 * extension; `WordsRecoverable` says when splitting the command on spaces
 * gives the word list back.
 */
module Commands {
  import opened JsText
  import opened Settings

  /** The two words every command starts with. */
  const Tool: seq<string> := ["cargo", "codesnip"]

  /** `"<s>"`, with nothing inside escaped. */
  function Quoted(s: string): string {
    "\"" + s + "\""
  }

  /** One word `flag + v` per value, in the order of the values. */
  function Flags(flag: string, values: seq<string>): (words: seq<string>)
    ensures |words| == |values|
    ensures forall i :: 0 <= i < |values| ==> words[i] == flag + values[i]
  {
    seq(|values|, i requires 0 <= i < |values| => flag + values[i])
  }

  /** The words of the update-cache command before its `cache` argument, in the order the extension emits them. */
  function UpdateCacheFlagWords(c: Configuration): seq<string> {
    Tool
    + Flags("-t=", c.source)
    + Flags("--cfg=", c.cfg)
    + Flags("--filter-item=", c.filterItem)
    + Flags("--filter-attr=", c.filterAttr)
    + (if c.minify then ["--format=minify"] else [])
  }

  /** The words of the update-cache command. */
  function UpdateCacheWords(c: Configuration): seq<string> {
    UpdateCacheFlagWords(c) + ["cache", Quoted(c.cacheFile)]
  }

  /** The words of `cargo codesnip --use-cache=<file>`, the prefix of verify, list and bundle. */
  function UseCacheWords(cacheFile: string): seq<string> {
    Tool + ["--use-cache=" + cacheFile]
  }

  /** The words of the verify command. */
  function VerifyWords(c: Configuration): seq<string> {
    UseCacheWords(c.cacheFile) + ["verify"]
    + (if c.toolchain.Some? then ["--toolchain=" + c.toolchain.value] else [])
    + (if c.edition.Some? then ["--edition=" + c.edition.value] else [])
    + (if c.verbose then ["--verbose"] else [])
  }

  /** The words of the list command. */
  function ListWords(c: Configuration): seq<string> {
    UseCacheWords(c.cacheFile) + ["list"] + (if c.notHide then ["--not-hide"] else [])
  }

  /** Appends ` <flag><v>` to `cmd` for each value `v`, as each `forEach` of `getUpdateCacheCommand` does. */
  method AppendFlags(cmd: string, ghost words: seq<string>, flag: string, values: seq<string>)
    returns (out: string)
    requires |words| >= 1 && cmd == Join(words, " ")
    ensures out == Join(words + Flags(flag, values), " ")
  {
    out := cmd;
    assert words + Flags(flag, values[..0]) == words;
    for i := 0 to |values|
      invariant out == Join(words + Flags(flag, values[..i]), " ")
    {
      JoinSnoc(words + Flags(flag, values[..i]), flag + values[i], " ");
      assert Flags(flag, values[..i + 1]) == Flags(flag, values[..i]) + [flag + values[i]];
      assert words + Flags(flag, values[..i + 1]) == words + Flags(flag, values[..i]) + [flag + values[i]];
      out := out + " " + flag + values[i];
    }
    assert values[..|values|] == values;
  }

  /** `getUpdateCacheCommand`. */
  method UpdateCacheCommand(c: Configuration) returns (cmd: string)
    ensures cmd == Join(UpdateCacheWords(c), " ")
  {
    cmd := "cargo codesnip";
    JoinTool();
    ghost var words := Tool;
    cmd := AppendFlags(cmd, words, "-t=", c.source);
    words := words + Flags("-t=", c.source);
    cmd := AppendFlags(cmd, words, "--cfg=", c.cfg);
    words := words + Flags("--cfg=", c.cfg);
    cmd := AppendFlags(cmd, words, "--filter-item=", c.filterItem);
    words := words + Flags("--filter-item=", c.filterItem);
    cmd := AppendFlags(cmd, words, "--filter-attr=", c.filterAttr);
    words := words + Flags("--filter-attr=", c.filterAttr);
    if c.minify {
      cmd, words := AppendWord(cmd, words, "--format=minify");
    }
    assert words == UpdateCacheFlagWords(c);
    CacheArgument(words, c.cacheFile);
    cmd := cmd + " cache \"" + c.cacheFile + "\"";
  }

  /** The two words every command starts with, joined. */
  lemma JoinTool()
    ensures Join(Tool, " ") == "cargo codesnip"
  {
    assert Tool[1..] == ["codesnip"];
  }

  /** The trailing ` cache "<file>"` adds the words `cache` and the quoted path. */
  lemma CacheArgument(words: seq<string>, cacheFile: string)
    requires |words| >= 1
    ensures Join(words, " ") + " cache \"" + cacheFile + "\""
            == Join(words + ["cache", Quoted(cacheFile)], " ")
  {
    JoinSnoc(words, "cache", " ");
    JoinSnoc(words + ["cache"], Quoted(cacheFile), " ");
    assert words + ["cache"] + [Quoted(cacheFile)] == words + ["cache", Quoted(cacheFile)];
    CacheSuffix(Join(words, " "), cacheFile);
  }

  /** Proof step: ` cache "<file>"` is the separator, `cache`, the separator and the quoted path. */
  lemma CacheSuffix(j: string, cacheFile: string)
    ensures j + " cache \"" + cacheFile + "\"" == j + " " + "cache" + " " + Quoted(cacheFile)
  {
  }

  /** `codesnipcmd`: the shared `cargo codesnip --use-cache=<file>` prefix. */
  function UseCacheCommand(cacheFile: string): (cmd: string)
    ensures cmd == Join(UseCacheWords(cacheFile), " ")
  {
    JoinTool();
    JoinSnoc(Tool, "--use-cache=" + cacheFile, " ");
    "cargo codesnip --use-cache=" + cacheFile
  }

  /** Appends ` <word>` to a command, as each `+=` of the verify, list and bundle builders does. */
  method AppendWord(cmd: string, ghost words: seq<string>, word: string)
    returns (out: string, ghost outWords: seq<string>)
    requires |words| >= 1 && cmd == Join(words, " ")
    ensures outWords == words + [word] && out == Join(outWords, " ")
  {
    JoinSnoc(words, word, " ");
    out := cmd + " " + word;
    outWords := words + [word];
  }

  /** The verify command (`verifycmd`), extended step by step. */
  method VerifyCommand(c: Configuration) returns (cmd: string)
    ensures cmd == Join(VerifyWords(c), " ")
  {
    ghost var words := UseCacheWords(c.cacheFile);
    cmd := UseCacheCommand(c.cacheFile);
    cmd, words := AppendWord(cmd, words, "verify");
    if c.toolchain.Some? {
      cmd, words := AppendWord(cmd, words, "--toolchain=" + c.toolchain.value);
    }
    if c.edition.Some? {
      cmd, words := AppendWord(cmd, words, "--edition=" + c.edition.value);
    }
    if c.verbose {
      cmd, words := AppendWord(cmd, words, "--verbose");
    }
    assert words == VerifyWords(c);
  }

  /** The list command (`listcmd`). */
  method ListCommand(c: Configuration) returns (cmd: string)
    ensures cmd == Join(ListWords(c), " ")
  {
    ghost var words := UseCacheWords(c.cacheFile);
    cmd := UseCacheCommand(c.cacheFile);
    cmd, words := AppendWord(cmd, words, "list");
    if c.notHide {
      cmd, words := AppendWord(cmd, words, "--not-hide");
    }
    assert words == ListWords(c);
  }

  /** `value.trimEnd().split(" ")`: the snippet names printed by the list command. */
  function ParseList(stdout: string): (names: seq<string>)
    ensures |names| >= 1
    ensures NoneContains(names, ' ')
  {
    SplitOn(TrimEnd(stdout), {' '})
  }

  /** Joining the parsed names with single spaces gives the output without its trailing whitespace. */
  lemma ParseListJoin(stdout: string)
    ensures Join(ParseList(stdout), " ") == TrimEnd(stdout)
  {
    JoinSplitOn(TrimEnd(stdout), ' ');
  }

  /** Names separated by single spaces, with any trailing whitespace, parse back to exactly those names. */
  lemma ParseListOfJoin(names: seq<string>, trailer: string)
    requires |names| >= 1 && NoneContains(names, ' ')
    requires Join(names, " ") == [] || !IsTrimmable(Join(names, " ")[|Join(names, " ")| - 1])
    requires forall i :: 0 <= i < |trailer| ==> IsTrimmable(trailer[i])
    ensures ParseList(Join(names, " ") + trailer) == names
  {
    var s := Join(names, " ");
    TrimEndSuffix(s, trailer);
    SplitOnJoin(names, ' ');
  }

  /** The empty configuration's update command is exactly `cargo codesnip cache "<file>"`. */
  lemma UpdateCacheMinimal(c: Configuration)
    requires c.source == [] && c.cfg == [] && c.filterItem == [] && c.filterAttr == [] && !c.minify
    ensures Join(UpdateCacheWords(c), " ") == "cargo codesnip cache \"" + c.cacheFile + "\""
  {
    assert UpdateCacheFlagWords(c) == Tool;
    JoinTool();
    CacheArgument(Tool, c.cacheFile);
  }

  /**
   * Splitting a command on spaces gives its words back exactly when no word
   * holds a space; the extension quotes nothing but the cache path and the
   * bundle name, so a space in any other value becomes a word boundary.
   */
  lemma WordsRecoverable(words: seq<string>)
    requires |words| >= 1
    ensures SplitOn(Join(words, " "), {' '}) == words <==> NoneContains(words, ' ')
  {
    if NoneContains(words, ' ') {
      SplitOnJoin(words, ' ');
    }
  }

  /**
   * A `-t=`, `--cfg=`, `--filter-item=` or `--filter-attr=` value holding a
   * space is not quoted, so splitting the update command on spaces does not
   * give its words back.
   */
  lemma UpdateCacheValueWithSpace(c: Configuration, v: string)
    requires v in c.source + c.cfg + c.filterItem + c.filterAttr && ' ' in v
    ensures SplitOn(Join(UpdateCacheWords(c), " "), {' '}) != UpdateCacheWords(c)
  {
    var f1, f2 := Flags("-t=", c.source), Flags("--cfg=", c.cfg);
    var f3, f4 := Flags("--filter-item=", c.filterItem), Flags("--filter-attr=", c.filterAttr);
    var m := if c.minify then ["--format=minify"] else [];
    var tail := ["cache", Quoted(c.cacheFile)];
    if v in c.source {
      FlagsHoldSpace("-t=", c.source, v);
    } else if v in c.cfg {
      FlagsHoldSpace("--cfg=", c.cfg, v);
    } else if v in c.filterItem {
      FlagsHoldSpace("--filter-item=", c.filterItem, v);
    } else {
      FlagsHoldSpace("--filter-attr=", c.filterAttr, v);
    }
    NoneContainsConcat(Tool, f1, ' ');
    NoneContainsConcat(Tool + f1, f2, ' ');
    NoneContainsConcat(Tool + f1 + f2, f3, ' ');
    NoneContainsConcat(Tool + f1 + f2 + f3, f4, ' ');
    NoneContainsConcat(Tool + f1 + f2 + f3 + f4, m, ' ');
    NoneContainsConcat(Tool + f1 + f2 + f3 + f4 + m, tail, ' ');
    WordsRecoverable(UpdateCacheWords(c));
  }

  /** A value holding a space makes its flag word hold one. */
  lemma FlagsHoldSpace(flag: string, values: seq<string>, v: string)
    requires v in values && ' ' in v
    ensures !NoneContains(Flags(flag, values), ' ')
  {
    var i :| 0 <= i < |values| && values[i] == v;
    var w := Flags(flag, values)[i];
    assert w == flag + v;
    var k :| 0 <= k < |v| && v[k] == ' ';
    assert w[|flag| + k] == ' ';
  }

  /** One source and `minify`: `cargo codesnip -t=<src> --format=minify cache "<file>"`. */
  lemma UpdateCacheOneSourceMinify(c: Configuration, src: string)
    requires c.source == [src] && c.cfg == [] && c.filterItem == [] && c.filterAttr == [] && c.minify
    ensures Join(UpdateCacheWords(c), " ")
            == "cargo codesnip -t=" + src + " --format=minify cache \"" + c.cacheFile + "\""
  {
    var w1 := Tool + ["-t=" + src];
    assert UpdateCacheFlagWords(c) == w1 + ["--format=minify"];
    JoinTool();
    JoinSnoc(Tool, "-t=" + src, " ");
    JoinSnoc(w1, "--format=minify", " ");
    CacheArgument(w1 + ["--format=minify"], c.cacheFile);
    OneSourceMinifyText(src, c.cacheFile);
  }

  /** Proof step: the word-by-word join of the one-source command is the literal command text. */
  lemma OneSourceMinifyText(src: string, cacheFile: string)
    ensures "cargo codesnip" + " " + ("-t=" + src) + " " + "--format=minify" + " cache \"" + cacheFile + "\""
            == "cargo codesnip -t=" + src + " --format=minify cache \"" + cacheFile + "\""
  {
  }

  /** Space-separated output with a trailing line feed parses into its names. */
  lemma ParseSpaceSeparated()
    ensures ParseList("a b c\n") == ["a", "b", "c"]
  {
    var names := ["a", "b", "c"];
    assert names[1..] == ["b", "c"] && names[2..] == ["c"];
    assert Join(names, " ") == "a b c";
    assert "a b c\n" == Join(names, " ") + "\n";
    ParseListOfJoin(names, "\n");
  }

  /** Line-separated output is one name: the parse splits on spaces only. */
  lemma ParseLineSeparated()
    ensures ParseList("a\nb\nc") == ["a\nb\nc"]
  {
    assert TrimEnd("a\nb\nc") == "a\nb\nc";
    SplitOnWhole("a\nb\nc", {' '});
  }
}
