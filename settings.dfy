/**
 * Resolution of the `codesnip` settings section into an immutable
 * configuration record (`getCodesnipConfiguration`, `getDefaultCacheFile`
 * and `InsertionPosition.fromString` in src/extension.ts).
 */
module Settings {
  import opened Wrappers

  /** Where bundled text goes: after the document's last character, or over the selection. */
  datatype InsertionPosition = Last | Cursor

  /** The record `getCodesnipConfiguration` returns. */
  datatype Configuration = Configuration(
    cacheFile: string,
    source: seq<string>,
    cfg: seq<string>,
    filterItem: seq<string>,
    filterAttr: seq<string>,
    minify: bool,
    insertionPosition: InsertionPosition,
    notHide: bool,
    toolchain: Option<string>,
    edition: Option<string>,
    verbose: bool)

  /** A value the settings store may hold under a key. */
  datatype Value = Null | Text(text: string) | List(items: seq<string>) | Flag(flag: bool)

  /** The `codesnip` settings section: a key is absent when the user has not set it. */
  type Store = map<string, Value>

  const CacheFileKey := "cacheFile"
  const SourceKey := "source"
  const CfgKey := "cfg"
  const FilterItemKey := "filterItem"
  const FilterAttrKey := "filterAttr"
  const MinifyKey := "minify"
  const InsertionPositionKey := "insertionPosition"
  const NotHideKey := "notHide"
  const ToolchainKey := "verify.toolchain"
  const EditionKey := "verify.edition"
  const VerboseKey := "verify.verbose"

  /** The path, relative to the first workspace folder, of the default cache file. */
  const DefaultCacheRelPath := "target/codesnip/codesnip-cache.bin"

  predicate IsNullableText(store: Store, key: string) {
    key in store ==> store[key].Null? || store[key].Text?
  }

  predicate IsList(store: Store, key: string) {
    key in store ==> store[key].List?
  }

  predicate IsFlag(store: Store, key: string) {
    key in store ==> store[key].Flag?
  }

  /** Every key the extension reads holds a value of the type its `get<T>` call declares. */
  predicate WellTyped(store: Store) {
    IsNullableText(store, CacheFileKey)
    && IsList(store, SourceKey) && IsList(store, CfgKey)
    && IsList(store, FilterItemKey) && IsList(store, FilterAttrKey)
    && IsFlag(store, MinifyKey) && IsFlag(store, NotHideKey) && IsFlag(store, VerboseKey)
    && IsNullableText(store, InsertionPositionKey)
    && IsNullableText(store, ToolchainKey) && IsNullableText(store, EditionKey)
  }

  /** `get<string | null>(key, null)`, and `get<string>(key)` with `undefined` read as absent. */
  function GetText(store: Store, key: string): Option<string>
    requires IsNullableText(store, key)
  {
    if key in store && store[key].Text? then Some(store[key].text) else None
  }

  /** `get<string[]>(key, [])`. */
  function GetList(store: Store, key: string): seq<string>
    requires IsList(store, key)
  {
    if key in store then store[key].items else []
  }

  /** `get<boolean>(key, false)`. */
  function GetFlag(store: Store, key: string): bool
    requires IsFlag(store, key)
  {
    key in store && store[key].flag
  }

  /** `InsertionPosition.fromString`: exactly the string "cursor" selects the cursor. */
  function InsertionPositionFromString(s: Option<string>): (p: InsertionPosition)
    ensures p == Cursor <==> s == Some("cursor")
  {
    match s
    case Some(str) => if str == "cursor" then Cursor else Last
    case None => Last
  }

  /**
   * `getDefaultCacheFile`: the first workspace folder joined with the fixed
   * relative path, or nothing without a folder. `joinPath` stands for
   * `vscode.Uri.joinPath(...).fsPath`.
   */
  function DefaultCacheFile(folders: seq<string>, joinPath: (string, string) -> string): (r: Option<string>)
    ensures r.Some? <==> |folders| >= 1
    ensures r.Some? ==> r.value == joinPath(folders[0], DefaultCacheRelPath)
  {
    if |folders| >= 1 then Some(joinPath(folders[0], DefaultCacheRelPath)) else None
  }

  /** `getCodesnipConfiguration`: `None` is the `undefined` that means "no cache file is set". */
  function Resolve(store: Store, folders: seq<string>, joinPath: (string, string) -> string): (r: Option<Configuration>)
    requires WellTyped(store)
    // an explicit cache file is used verbatim, even an empty string
    ensures CacheFileKey in store && store[CacheFileKey].Text? ==>
              r.Some? && r.value.cacheFile == store[CacheFileKey].text
    // otherwise the first workspace folder supplies the default
    ensures GetText(store, CacheFileKey).None? && |folders| >= 1 ==>
              r.Some? && r.value.cacheFile == joinPath(folders[0], DefaultCacheRelPath)
    // and with neither there is no configuration
    ensures r.None? <==> GetText(store, CacheFileKey).None? && |folders| == 0
  {
    var cacheFile := match GetText(store, CacheFileKey)
                     case Some(f) => Some(f)
                     case None => DefaultCacheFile(folders, joinPath);
    match cacheFile
    case None => None
    case Some(f) =>
      Some(Configuration(
        f,
        GetList(store, SourceKey),
        GetList(store, CfgKey),
        GetList(store, FilterItemKey),
        GetList(store, FilterAttrKey),
        GetFlag(store, MinifyKey),
        InsertionPositionFromString(GetText(store, InsertionPositionKey)),
        GetFlag(store, NotHideKey),
        GetText(store, ToolchainKey),
        GetText(store, EditionKey),
        GetFlag(store, VerboseKey)))
  }

  /** With nothing set, every list is empty, every flag false, toolchain and edition null, position last. */
  lemma ResolveDefaults(folders: seq<string>, joinPath: (string, string) -> string)
    requires |folders| >= 1
    ensures Resolve(map[], folders, joinPath) ==
              Some(Configuration(joinPath(folders[0], DefaultCacheRelPath), [], [], [], [], false,
                                 Last, false, None, None, false))
  {
  }

  /**
   * Setting by setting, whatever the rest of the store holds: a value that is
   * present is taken as stored, and an absent one (or a null toolchain,
   * edition or position) takes its default: an empty list, `false`, null, `last`.
   */
  lemma ResolveStoredValues(store: Store, folders: seq<string>, joinPath: (string, string) -> string)
    requires WellTyped(store)
    requires Resolve(store, folders, joinPath).Some?
    ensures var c := Resolve(store, folders, joinPath).value;
            (SourceKey in store ==> c.source == store[SourceKey].items)
            && (SourceKey !in store ==> c.source == [])
            && (CfgKey in store ==> c.cfg == store[CfgKey].items)
            && (CfgKey !in store ==> c.cfg == [])
            && (FilterItemKey in store ==> c.filterItem == store[FilterItemKey].items)
            && (FilterItemKey !in store ==> c.filterItem == [])
            && (FilterAttrKey in store ==> c.filterAttr == store[FilterAttrKey].items)
            && (FilterAttrKey !in store ==> c.filterAttr == [])
            && (MinifyKey in store ==> c.minify == store[MinifyKey].flag)
            && (MinifyKey !in store ==> !c.minify)
            && (NotHideKey in store ==> c.notHide == store[NotHideKey].flag)
            && (NotHideKey !in store ==> !c.notHide)
            && (VerboseKey in store ==> c.verbose == store[VerboseKey].flag)
            && (VerboseKey !in store ==> !c.verbose)
            && (ToolchainKey in store && store[ToolchainKey].Text? ==>
                  c.toolchain == Some(store[ToolchainKey].text))
            && (ToolchainKey !in store || store[ToolchainKey].Null? ==> c.toolchain == None)
            && (EditionKey in store && store[EditionKey].Text? ==>
                  c.edition == Some(store[EditionKey].text))
            && (EditionKey !in store || store[EditionKey].Null? ==> c.edition == None)
            && (c.insertionPosition == Cursor <==>
                  InsertionPositionKey in store && store[InsertionPositionKey] == Text("cursor"))
  {
  }
}
