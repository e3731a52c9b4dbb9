# codesnip-vscode: command construction, guard scan and insertion, in Dafny

The codesnip extension for VS Code drives the external `cargo codesnip`
tool. It turns the user's `codesnip` settings into command lines, reads the
names the tool lists, finds `// codesnip-guard: <token>` lines in the active
document, and inserts the tool's output into the document. All of this
happens in `src/extension.ts`. This project models the deterministic part of
that file as Dafny values, functions and methods, and proves what each piece
produces:

- `Settings`: `getCodesnipConfiguration`, `getDefaultCacheFile` and
  `InsertionPosition.fromString`. The settings store is a map from keys to
  optional values. The default cache path comes from a `joinPath` function
  parameter.
- `Commands`: the update-cache command (`getUpdateCacheCommand`), the shared
  `--use-cache=` prefix, and the verify and list commands. Each is a method
  that appends to the command string step by step, as the source does, and
  is proved equal to its word list joined with single spaces. The module
  also holds the `trimEnd().split(" ")` parse of the list output.
- `Guards`: the bundle command. A method scans the document line by line.
  It is proved to add one ` -e="<token>"` for each line that the multiline
  regular expression `^// codesnip-guard: (\w+)$` matches.
- `Insertion`: the inserted text (`trimEnd()` plus one line feed) and where
  it goes. It is either appended to the document or spliced over the
  selection.
- `JsText`: `trimEnd`, `split`, `join` and line splitting, written out with
  ECMAScript's character classes.

Some behaviour of the code worth knowing:

- The update command is still built when no source is configured. It is then
  `cargo codesnip cache "<file>"`. Activation only shows an error message
  (src/extension.ts:21-28).
- Flag values (`-t=`, `--cfg=`, `--filter-item=`, `--filter-attr=`,
  `--toolchain=`, `--edition=`) and the `--use-cache=` path are not quoted.
  Only the trailing `cache "<file>"` path, the bundle name and the guard
  tokens are quoted, and none of them is escaped. `WordsRecoverable` and
  `BundleWordsRecoverable` state when splitting a command on spaces gives
  back its words.
- The list output is split on single spaces only. Line-separated output
  becomes one name (`ParseLineSeparated`).

Under the multiline flag, `^` and `$` match next to all four ECMAScript
line terminators: line feed, carriage return, U+2028 and U+2029. The line
scanner therefore splits at all four, not only at line feed and carriage
return.

## Model

| member | source | states |
|---|---|---|
| `JsText.TrimEnd` | src/extension.ts:60 | the result is a prefix of the input, does not end in ECMAScript whitespace or a line terminator, and everything removed is such a character |
| `JsText.TrimEndSuffix` | src/extension.ts:60 | trailing whitespace after text that does not end in whitespace is exactly what `trimEnd` removes |
| `JsText.SplitOn` | src/extension.ts:60 | `split` always yields at least one piece, and no piece contains a separator |
| `JsText.JoinSplitOn` | src/extension.ts:60 | joining the pieces of a split with the same separator gives the string back |
| `JsText.SplitOnJoin` | src/extension.ts:60 | splitting a join gives back a non-empty list of pieces that contain no separator |
| `JsText.SplitOnConcat` | src/extension.ts:69 | a separator between two texts splits exactly between their pieces |
| `Settings.InsertionPositionFromString` | src/extension.ts:127-132 | the position is `cursor` exactly when the setting is the string "cursor"; anything else, absent included, gives `last` |
| `Settings.DefaultCacheFile` | src/extension.ts:153-160 | a default exists exactly when there is a workspace folder, and it is the first folder joined with `target/codesnip/codesnip-cache.bin` |
| `Settings.Resolve` | src/extension.ts:135-151 | an explicit cache file is used verbatim; otherwise the first folder's default is used; the result is "no configuration" exactly when neither exists |
| `Settings.ResolveDefaults` | src/extension.ts:140-149 | with nothing set, lists are empty, flags false, toolchain and edition null, and the position is `last` |
| `Settings.ResolveStoredValues` | src/extension.ts:140-149 | for any store that yields a configuration, setting by setting: a present value is taken as stored; an absent list is empty, an absent flag false, an absent or null toolchain or edition null; the position is `cursor` exactly when the stored value is `"cursor"` |
| `Commands.AppendFlags` | src/extension.ts:164-167 | each `forEach` appends one ` <flag><value>` per value, in list order |
| `Commands.UpdateCacheCommand` | src/extension.ts:162-171 | the command is `cargo codesnip`, then `-t=` per source, `--cfg=`, `--filter-item=`, `--filter-attr=` per entry, `--format=minify` iff minify, then `cache "<file>"`, space-separated, in that order |
| `Commands.UpdateCacheMinimal` | src/extension.ts:162-171 | with empty lists and no minify the command is exactly `cargo codesnip cache "<file>"` |
| `Commands.UpdateCacheOneSourceMinify` | src/extension.ts:162-171 | one source with minify gives exactly `cargo codesnip -t=<src> --format=minify cache "<file>"` |
| `Commands.WordsRecoverable` | src/extension.ts:164-169 | splitting a command on spaces recovers its words exactly when no word holds a space (both directions), since values are not quoted |
| `Commands.UpdateCacheValueWithSpace` | src/extension.ts:164-167 | a `-t=`, `--cfg=`, `--filter-item=` or `--filter-attr=` value holding a space changes the update command's words when it is split on spaces, because the values are not quoted |
| `Commands.UseCacheCommand` | src/extension.ts:43 | the shared prefix is the words `cargo codesnip --use-cache=<file>`, with the path unquoted |
| `Commands.VerifyCommand` | src/extension.ts:48-51 | the command is the prefix and `verify`, then `--toolchain=` iff a toolchain is set, `--edition=` iff an edition is set, `--verbose` iff verbose, in that order |
| `Commands.ListCommand` | src/extension.ts:56-59 | the command is the prefix and `list`, with `--not-hide` iff notHide |
| `Commands.ParseList` | src/extension.ts:60 | the parse always yields at least one name, and no name contains a space |
| `Commands.ParseListJoin` | src/extension.ts:60 | joining the names with single spaces gives the output without its trailing whitespace |
| `Commands.ParseListOfJoin` | src/extension.ts:60 | space-free names joined by single spaces, with any trailing whitespace, parse back to exactly those names |
| `Commands.ParseSpaceSeparated` | src/extension.ts:60 | `"a b c\n"` parses to `a`, `b`, `c` |
| `Commands.ParseLineSeparated` | src/extension.ts:60 | `"a\nb\nc"` parses to one name, because only spaces separate |
| `Guards.Lines` | src/extension.ts:69 | the lines the multiline anchors delimit: at least one, none containing a line terminator |
| `Guards.GuardToken` | src/extension.ts:69 | a token is captured only when the line is exactly the marker followed by a non-empty run of `[A-Za-z0-9_]` |
| `Guards.GuardTokens` | src/extension.ts:69-71 | the `regex.exec` captures: at most one per line, each a word that, after the marker, is a whole line of the text |
| `Guards.GuardTokenOfMarker` | src/extension.ts:69 | every marker line with a word token yields that token |
| `Guards.GuardTokenNeedsMarkerAtStart` | src/extension.ts:69 | a line that does not start with the full marker `// codesnip-guard: `, such as an indented one or `//codesnip-guard: x`, yields nothing |
| `Guards.GuardTokenNeedsWordAtEnd` | src/extension.ts:69 | a line ending in a non-word character, such as a trailing space, yields nothing |
| `Guards.GuardTokensConcat` | src/extension.ts:69-71 | the tokens of two texts joined by a line break are the first text's tokens followed by the second's: document order, duplicates kept |
| `Guards.TwoGuardLines` | src/extension.ts:69-71 | two guard lines give their two tokens in document order, even when the tokens are equal |
| `Guards.AppendGuards` | src/extension.ts:68-72 | the scanning loop appends exactly one ` -e="<token>"` per guard line of the document, in order |
| `Guards.BundleCommand` | src/extension.ts:64-72 | the bundle command is the prefix, `bundle "<name>"`, then the exclusions of the active document's guard lines, or none without a document |
| `Guards.BundleWordsRecoverable` | src/extension.ts:64-71 | when the path and name hold no space, splitting the bundle command on spaces gives its words back, because tokens are word characters |
| `Insertion.InsertionText` | src/extension.ts:76 | the inserted text is the output up to its last non-whitespace character, followed by exactly one line feed |
| `Insertion.InsertionTextIdempotent` | src/extension.ts:76 | normalising an inserted text again changes nothing, so it ends in exactly one line feed |
| `Insertion.Splice` | src/extension.ts:76 | replacing a range keeps the text before and after it and puts the new text in between |
| `Insertion.Place` | src/extension.ts:74-80 | with `last`, the new document is the old one followed by the inserted text; with `cursor`, the text before the selection, the inserted text, then the text after the selection |
| `Insertion.PlaceCursorUndo` | src/extension.ts:75-76 | with `cursor`, only the selection changes: putting the replaced text back over the insertion restores the document |
| `Insertion.PlaceLastNormalised` | src/extension.ts:73-79 | output that is code ending in non-whitespace plus one line feed, such as `"fn foo() {}\n"`, is appended with `last` exactly as it is |

## Left out

- Running commands (`execShell`, `cp.exec`) is process I/O. The tool's stdout is an input string, and a failed run is not modelled.
- The `cargo --version` and `cargo codesnip --version` probes are external processes.
- The `fs.statSync` check is filesystem I/O. In the source it decides whether the verify, list and bundle commands are registered at all.
- VS Code UI is a host library: messages, the quick pick, the terminal, progress reporting, command registration and opening the settings. The snippet name picked in the quick pick is a parameter of `BundleCommand`. The warning for an empty source list is only a message.
- `editor.edit` is host code. The model gives only the text it produces. Positions are character offsets into the document, not VS Code's line and column pairs.
- `vscode.Uri.joinPath(...).fsPath` is a foreign call. It is the `joinPath` parameter of `Settings.DefaultCacheFile` and `Settings.Resolve`.
- Re-activation after a settings change or a cache update is event wiring into the host.
- Settings.Resolve: only stores whose values have the types the `get<T>` calls declare are modelled (`WellTyped`). TypeScript does not check those types at run time.
- JsText.TrimEnd: ECMAScript strings are UTF-16 code units, while Dafny strings are Unicode scalar values. Every character that `trimEnd`, `split(" ")` and the guard pattern look at lies in the Basic Multilingual Plane. Lone surrogates cannot be represented.
