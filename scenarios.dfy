/**
 * Short runs of the session, from a fresh page, that show what the contracts
 * of `Session` let a caller conclude.
 */
module HasteScenarios {
  import opened Wrappers
  import opened JsString
  import opened HasteDocument
  import opened HasteKeys
  import opened HasteButtons
  import opened HasteSession

  /** A key the server does not know: the session falls back to a new document and pushes one root entry. */
  method MissingKey(appName: string, hl: Highlighter, key: string) returns (s: Session)
    ensures s.Valid() && s.panel == Editor && !s.doc.locked && s.doc.key == None
    ensures s.textarea == "" && s.title == appName && s.history == [RootEntry(appName)]
  {
    s := new Session(appName, true);
    s.LoadDocument(hl, key, NotFound);
  }

  /** Typing `text` and pressing control+s, the server answering `key`: the viewer shows `appName - key - language`. */
  method SaveWithShortcut(appName: string, hl: Highlighter, text: string, key: string, language: string)
      returns (s: Session, prevented: bool)
    requires text != [] && !IsSpace(text[0])
    requires key != "" && language != "" && hl.auto(text).language == Some(language)
    ensures s.Valid() && s.panel == Viewer && s.doc.locked && s.doc.key == Some(key) && s.doc.data == Some(text)
    ensures s.title == appName + " - " + key + " - " + language
    ensures s.history == [SavedEntry(appName, key)] && s.textarea == ""
    ensures prevented
  {
    s := new Session(appName, false);
    s.Input(text);
    TrimEmptyIffBlank(text);
    var evt := KeyEvent(true, 83);
    DispatchTable(evt, ShortcutContext(false, false));
    var fired;
    fired, prevented := s.KeyDown(evt, Env(hl, Created(key)));
    ShownTitle(appName, key, Some(language));
  }

  /** control+s on white space only: no request is made and nothing changes, though the default is prevented. */
  method BlankSave(appName: string, hl: Highlighter, text: string, reply: SaveReply)
      returns (s: Session, fired: Option<ButtonId>, prevented: bool)
    requires Blank(text)
    ensures fired == Some(Save) && prevented
    ensures s.Valid() && !s.doc.locked && s.doc.data == None && s.panel == Editor
    ensures s.textarea == text && s.history == []
  {
    s := new Session(appName, false);
    s.Input(text);
    TrimEmptyIffBlank(text);
    var evt := KeyEvent(true, 83);
    DispatchTable(evt, ShortcutContext(false, false));
    fired, prevented := s.KeyDown(evt, Env(hl, reply));
  }

  /** control+d on an unlocked document: the shortcut does not match, nothing runs and the default is kept. */
  method DuplicateWhileUnlocked(appName: string, env: Env) returns (s: Session, fired: Option<ButtonId>, prevented: bool)
    ensures fired == None && !prevented
    ensures s.Valid() && !s.doc.locked && s.panel == Editor && s.history == []
  {
    s := new Session(appName, true);
    var evt := KeyEvent(true, 68);
    DispatchTable(evt, ShortcutContext(false, true));
    fired, prevented := s.KeyDown(evt, env);
  }
}
