/**
 * How the haste client reads a document key from the address, maps its extension
 * to a highlighting language, and composes the page title and history entries.
 */
module HasteKeys {
  import opened Wrappers
  import opened JsString

  /** `haste.extensionMap`: common file extensions and the hljs language each one selects. */
  const ExtensionMap: map<string, string> := map[
    "rb" := "ruby", "py" := "python", "pl" := "perl", "php" := "php", "scala" := "scala", "go" := "go",
    "xml" := "xml", "html" := "xml", "htm" := "xml", "css" := "css", "js" := "javascript", "vbs" := "vbscript",
    "lua" := "lua", "pas" := "delphi", "java" := "java", "cpp" := "cpp", "cc" := "cpp", "m" := "objectivec",
    "vala" := "vala", "cs" := "cs", "sql" := "sql", "sm" := "smalltalk", "lisp" := "lisp", "ini" := "ini",
    "diff" := "diff", "bash" := "bash", "sh" := "bash", "tex" := "tex", "erl" := "erlang", "hs" := "haskell",
    "md" := "markdown"
  ]

  /** Every language in the table is a non-empty name, so every hint it gives is truthy. */
  lemma LanguagesNonEmpty()
    ensures forall e :: e in ExtensionMap ==> ExtensionMap[e] != ""
  {
  }

  /**
   * `lookupExtension(ext)`: the table's language, or `undefined` for an unknown or
   * missing extension (an `undefined` argument is looked up as the key "undefined").
   */
  function LookupExtension(ext: Option<string>): (lang: Option<string>)
    ensures lang.Some? <==> ext.Some? && ext.value in ExtensionMap
    ensures lang.Some? ==> lang.value == ExtensionMap[ext.value]
    ensures Truthy(lang) <==> lang.Some?
  {
    LanguagesNonEmpty();
    var name := if ext.Some? then ext.value else "undefined";
    if name in ExtensionMap then Some(ExtensionMap[name]) else None
  }

  /** `parts[i]` of a JavaScript array: `undefined` past its end. */
  function Part(parts: seq<string>, i: nat): Option<string>
  {
    if i < |parts| then Some(parts[i]) else None
  }

  /** What `loadDocument` asks for: the id passed to `load` and the language hint. */
  datatype LoadRequest = LoadRequest(id: string, hint: Option<string>)

  /** `key.split('.', 2)` in `loadDocument`, followed by `lookupExtension(parts[1])`. */
  function RequestFor(key: string): (req: LoadRequest)
    ensures req.id == key[..IndexOf(key, '.')]
    ensures req.id == key <==> '.' !in key
    ensures '.' !in key ==> req.hint == None
  {
    var parts := Split2(key, '.');
    LoadRequest(parts[0], LookupExtension(Part(parts, 1)))
  }

  /** A key without a dot is requested as it is, with no hint. */
  lemma RequestWithoutExtension(id: string)
    requires '.' !in id
    ensures RequestFor(id) == LoadRequest(id, None)
  {
    Split2NoSeparator(id, '.');
  }

  /** `id.ext` requests `id`, hinted by the table's entry for `ext`. */
  lemma RequestWithExtension(id: string, ext: string)
    requires '.' !in id && '.' !in ext
    ensures RequestFor(id + "." + ext) == LoadRequest(id, LookupExtension(Some(ext)))
  {
    Split2OneSeparator(id, '.', ext);
  }

  /** `id.ext.rest` requests `id` hinted by `ext`: whatever follows the second dot is dropped. */
  lemma RequestDropsAfterSecondDot(id: string, ext: string, rest: string)
    requires '.' !in id && '.' !in ext
    ensures RequestFor(id + "." + ext + "." + rest) == LoadRequest(id, LookupExtension(Some(ext)))
  {
    Split2DropsTail(id, '.', ext, rest);
  }

  /** An extension the table lacks gives no hint. */
  lemma UnlistedExtension(ext: string)
    requires ext !in ExtensionMap
    ensures LookupExtension(Some(ext)) == None
  {
  }

  /** `abc.py` requests `abc` with the hint `python`. */
  lemma RequestKnownExtension(id: string, ext: string)
    requires id == "abc" && ext == "py"
    ensures RequestFor(id + "." + ext) == LoadRequest("abc", Some("python"))
  {
    RequestWithExtension(id, ext);
  }

  /** `abc.def.py` requests `abc` with no hint: the extension read is `def`, which the table lacks. */
  lemma RequestTwoDots(id: string, ext: string, rest: string)
    requires id == "abc" && ext == "def" && rest == "py"
    ensures RequestFor(id + "." + ext + "." + rest) == LoadRequest("abc", None)
  {
    RequestDropsAfterSecondDot(id, ext, rest);
    UnlistedExtension(ext);
  }

  /** `id.ext` with an extension the table lacks (`xyz.unknownext`, say) requests `id` with no hint. */
  lemma RequestUnknownExtension(id: string, ext: string)
    requires '.' !in id && '.' !in ext && ext !in ExtensionMap
    ensures RequestFor(id + "." + ext) == LoadRequest(id, None)
  {
    RequestWithExtension(id, ext);
    UnlistedExtension(ext);
  }

  /** `setTitle(ext)`: the application name, followed by ` - ext` when `ext` is truthy. */
  function TitleFor(appName: string, ext: Option<string>): (title: string)
    ensures |title| >= |appName| && title[..|appName|] == appName
    ensures title == appName <==> !Truthy(ext)
    ensures Truthy(ext) ==> title == appName + " - " + ext.value
  {
    if Truthy(ext) then appName + " - " + ext.value else appName
  }

  /** The text passed to `setTitle` once a document is shown: its key, then ` - language` when one is known. */
  function Caption(key: string, language: Option<string>): (c: string)
    ensures |c| >= |key| && c[..|key|] == key
    ensures Truthy(language) <==> |c| > |key|
  {
    if Truthy(language) then key + " - " + language.value else key
  }

  /** The shown title is `appName - key[ - language]`; it is `appName` alone only for an empty key without language. */
  lemma {:induction false} ShownTitle(appName: string, key: string, language: Option<string>)
    ensures key != "" || Truthy(language) ==>
      TitleFor(appName, Some(Caption(key, language)))
        == appName + " - " + key + (if Truthy(language) then " - " + language.value else "")
    ensures key == "" && !Truthy(language) ==> TitleFor(appName, Some(Caption(key, language))) == appName
  {
    if Truthy(language) {
      assert Caption(key, language) != "";
      assert appName + " - " + key + " - " + language.value == appName + " - " + (key + " - " + language.value);
    }
  }

  /** One `window.history.pushState(null, title, path)` call. */
  datatype HistoryEntry = HistoryEntry(title: string, path: string)

  /** The entry `newDocument` pushes. */
  function RootEntry(appName: string): HistoryEntry
  {
    HistoryEntry(appName, "/")
  }

  /** The entry `lockDocument` pushes: the key is the whole path after its slash. */
  function SavedEntry(appName: string, key: string): HistoryEntry
  {
    HistoryEntry(appName + "-" + key, "/" + key)
  }

  /** The path of a saved entry names its key: two saves push the same path only for the same key. */
  lemma SavedPathNamesKey(appName: string, k1: string, k2: string)
    ensures SavedEntry(appName, k1).path == SavedEntry(appName, k2).path <==> k1 == k2
  {
    if SavedEntry(appName, k1).path == SavedEntry(appName, k2).path {
      assert k1 == SavedEntry(appName, k1).path[1..];
      assert k2 == SavedEntry(appName, k2).path[1..];
    }
  }

  /**
   * A saved entry never carries the root title, and its path is the root path `/`
   * only for the empty key.
   */
  lemma SavedEntryNotRoot(appName: string, key: string)
    ensures SavedEntry(appName, key).title != RootEntry(appName).title
    ensures SavedEntry(appName, key).path == RootEntry(appName).path <==> key == ""
  {
    assert |SavedEntry(appName, key).title| > |appName|;
    if SavedEntry(appName, key).path == RootEntry(appName).path {
      assert key == SavedEntry(appName, key).path[1..];
    }
  }
}
