/**
 * The `haste` object: the session that owns the current document, the page
 * title, the history log, the enabled buttons, the text area, the rendered code
 * and which of the two panels is visible.
 */
module HasteSession {
  import opened Wrappers
  import opened JsString
  import opened HasteDocument
  import opened HasteKeys
  import opened HasteButtons

  /** Which panel shows: the text area (`Editor`) or the rendered `#box` (`Viewer`). */
  datatype Panel = Editor | Viewer

  /** What the browser supplies to an action: the highlighter and the reply to a save request it may issue. */
  datatype Env = Env(hl: Highlighter, saveReply: SaveReply)

  /** The buttons `lightKey` and `fullKey` leave enabled. */
  const LightSet: set<ButtonId> := {New, Save}
  const FullSet: set<ButtonId> := {New, Duplicate, Twitter, Link}

  class Session {
    const appName: string
    /** `options.twitter`. */
    const twitter: bool
    var doc: Document
    /** `document.title`. */
    var title: string
    /** The `window.history.pushState` calls made so far, oldest first. */
    var history: seq<HistoryEntry>
    /** The key-box elements that carry the `enabled` class. */
    var enabled: set<ButtonId>
    /** The text area's value. */
    var textarea: string
    /** The markup inside `#box code`. */
    var code: string
    var panel: Panel

    /**
     * The document is consistent; the viewer shows exactly when the document is
     * locked; the enabled buttons are the full key then and the light key otherwise.
     */
    ghost predicate Valid()
      reads this, doc
    {
      doc.Valid()
      && (doc.locked <==> panel == Viewer)
      && enabled == (if doc.locked then FullSet else LightSet)
    }

    /** Nothing changed: same document object, same fields. */
    twostate predicate Unchanged()
      reads this, doc
    {
      doc == old(doc) && unchanged(this, doc)
    }

    /** What `newDocument` leaves, apart from the text area: a new empty document in the editor, with a root entry pushed when `pushed`. */
    twostate predicate FreshEditor(pushed: bool)
      reads this, doc
    {
      fresh(doc) && !doc.locked && doc.key == None && doc.data == None
      && title == appName && enabled == LightSet && panel == Editor
      && code == old(code)
      && history == old(history) + (if pushed then [RootEntry(appName)] else [])
    }

    /** The effect of `newDocument(hideHistory)`. */
    twostate predicate Renewed(hideHistory: bool)
      reads this, doc
    {
      FreshEditor(!hideHistory) && textarea == ""
    }

    /** What a successful `load` or `save` callback shows: the markup, the title, the full key, the viewer. */
    predicate Shown(v: View)
      reads this
    {
      code == v.value && title == TitleFor(appName, Some(Caption(v.key, v.language)))
      && enabled == FullSet && textarea == "" && panel == Viewer
    }

    /** The effect of `loadDocument(key)` when the server answers `reply`. */
    twostate predicate Loaded(hl: Highlighter, key: string, reply: LoadReply)
      reads this, doc
    {
      var req := RequestFor(key);
      match reply
      case Found(text) =>
        fresh(doc) && doc.locked && doc.key == Some(req.id) && doc.data == Some(text)
        && Shown(LoadedView(hl, req.id, req.hint, text)) && history == old(history)
      case NotFound => Renewed(false)
    }

    /** The effect of `duplicateDocument()`: nothing unless locked, else a new unlocked document holding the old text. */
    twostate predicate Duplicated()
      reads this, doc
    {
      if old(doc.locked) then FreshEditor(true) && old(doc.data) == Some(textarea)
      else Unchanged()
    }

    /** The effect of `lockDocument()` when the server answers `reply`. */
    twostate predicate Locked(hl: Highlighter, reply: SaveReply)
      reads this, doc
    {
      doc == old(doc)
      && if old(doc.locked) then unchanged(this, doc)
         else match reply
           case NoReply =>
             unchanged(this) && !doc.locked && doc.key == old(doc.key) && doc.data == Some(old(textarea))
           case Created(k) =>
             doc.locked && doc.key == Some(k) && doc.data == Some(old(textarea))
             && Shown(SavedView(hl, k, old(textarea)))
             && history == old(history) + [SavedEntry(appName, k)]
    }

    /** The effect of the `action` of button `a`. */
    twostate predicate Acted(a: ButtonId, env: Env)
      reads this, doc
    {
      match a
      case Save => if Trim(old(textarea)) != "" then Locked(env.hl, env.saveReply) else Unchanged()
      case New => Renewed(!Truthy(old(doc.key)))
      case Duplicate => Duplicated()
      case Twitter => Unchanged()
      case Link => Unchanged()
    }

    /**
     * `new haste(appName, options)` followed by the page's first `newDocument(true)`:
     * before that call `haste` has no `doc`.
     */
    constructor (appName: string, twitter: bool)
      ensures Valid() && fresh(doc)
      ensures this.appName == appName && this.twitter == twitter
      ensures !doc.locked && doc.key == None && doc.data == None
      ensures title == appName && history == [] && enabled == LightSet
      ensures textarea == "" && code == "" && panel == Editor
    {
      this.appName := appName;
      this.twitter := twitter;
      doc := new Document();
      title := appName;
      history := [];
      enabled := LightSet;
      textarea := "";
      code := "";
      panel := Editor;
    }

    /** `setTitle(ext)`. */
    method SetTitle(ext: Option<string>)
      modifies this`title
      ensures title == TitleFor(appName, ext)
    {
      title := TitleFor(appName, ext);
    }

    /** `configureKey(enable)`: each key-box element is enabled exactly when one of its classes is listed. */
    method ConfigureKey(enable: seq<ButtonId>)
      modifies this`enabled
      ensures enabled == set b | b in Elements && b in enable
    {
      var i := 0;
      while i < |Elements|
        invariant 0 <= i <= |Elements|
        invariant forall b :: b in enabled <==> if b in Elements[..i] then b in enable else b in old(enabled)
      {
        var element := Elements[i];
        var listed := false;
        var k := 0;
        while k < |enable|
          invariant 0 <= k <= |enable|
          invariant listed <==> element in enable[..k]
        {
          if enable[k] == element {
            listed := true;
            break;
          }
          k := k + 1;
        }
        assert listed <==> element in enable;
        if listed {
          enabled := enabled + {element};
        } else {
          enabled := enabled - {element};
        }
        assert Elements[..i + 1] == Elements[..i] + [element];
        i := i + 1;
      }
      assert Elements[..i] == Elements;
      forall b ensures b in enabled <==> b in Elements && b in enable {
        EveryButtonHasElement(b);
      }
    }

    /** `lightKey()`: only new and save are enabled. */
    method LightKey()
      modifies this`enabled
      ensures enabled == LightSet
    {
      ConfigureKey(HasteButtons.LightKey);
      assert enabled == LightSet by {
        forall b ensures b in enabled <==> b in LightSet {
          EveryButtonHasElement(b);
        }
      }
    }

    /** `fullKey()`: new, duplicate, twitter and link are enabled. */
    method FullKey()
      modifies this`enabled
      ensures enabled == FullSet
    {
      ConfigureKey(HasteButtons.FullKey);
      assert enabled == FullSet by {
        forall b ensures b in enabled <==> b in FullSet {
          EveryButtonHasElement(b);
        }
      }
    }

    /** `newDocument(hideHistory)`: a fresh unlocked document in the editor; `/` is pushed unless `hideHistory`. */
    method NewDocument(hideHistory: bool)
      modifies this
      ensures Valid() && Renewed(hideHistory)
    {
      panel := Editor;
      doc := new Document();
      if !hideHistory {
        history := history + [RootEntry(appName)];
      }
      SetTitle(None);
      LightKey();
      textarea := "";
    }

    /** `loadDocument(key)`, with the server's reply to the request for the key's id. */
    method LoadDocument(hl: Highlighter, key: string, reply: LoadReply)
      modifies this
      ensures Valid() && Loaded(hl, key, reply)
    {
      var req := RequestFor(key);
      doc := new Document();
      var ret := doc.Load(hl, req.id, req.hint, reply);
      match ret
      case Some(v) =>
        assert reply.Found? && v == LoadedView(hl, req.id, req.hint, reply.data);
        code := v.value;
        SetTitle(Some(Caption(v.key, v.language)));
        FullKey();
        textarea := "";
        panel := Viewer;
        assert Shown(v);
      case None =>
        assert reply.NotFound?;
        NewDocument(false);
    }

    /** `duplicateDocument()`. */
    method DuplicateDocument()
      requires Valid()
      modifies this
      ensures Valid() && Duplicated()
    {
      if doc.locked {
        var currentData := doc.data.value;
        NewDocument(false);
        textarea := currentData;
      }
    }

    /** `lockDocument()`, with the server's reply to the save request (if one is made). */
    method LockDocument(hl: Highlighter, reply: SaveReply)
      requires Valid()
      modifies this, doc
      ensures Valid() && Locked(hl, reply)
    {
      var outcome := doc.Save(hl, textarea, reply);
      match outcome
      case Saved(v) =>
        code := v.value;
        SetTitle(Some(Caption(v.key, v.language)));
        history := history + [SavedEntry(appName, v.key)];
        FullKey();
        textarea := "";
        panel := Viewer;
      case _ =>
    }

    /** The browser changing the text area's value as the user types. */
    method Input(text: string)
      modifies this`textarea
      ensures textarea == text
    {
      textarea := text;
    }

    /** The `action` closure of button `a`. */
    method RunAction(a: ButtonId, env: Env)
      requires Valid()
      modifies this, doc
      ensures Valid() && Acted(a, env)
      ensures old(doc.locked) ==> old(doc).locked
      ensures old(history) <= history
    {
      match a
      case Save =>
        if Trim(textarea) != "" {
          LockDocument(env.hl, env.saveReply);
        }
      case New =>
        NewDocument(!Truthy(doc.key));
      case Duplicate =>
        DuplicateDocument();
      case Twitter =>
      case Link =>
    }

    /** The click handler of button `a`: the default is always prevented; the action runs only on an enabled button. */
    method Click(a: ButtonId, env: Env) returns (prevented: bool)
      requires Valid()
      modifies this, doc
      ensures Valid() && prevented
      ensures a in old(enabled) ==> Acted(a, env)
      ensures a !in old(enabled) ==> Unchanged()
      ensures old(doc.locked) ==> old(doc).locked
    {
      prevented := true;
      if a in enabled {
        RunAction(a, env);
      }
    }

    /**
     * The keydown handler that `configureShortcuts` installs: the first button whose
     * shortcut accepts the event runs its action, and only that one. The `enabled`
     * class is not consulted.
     */
    method KeyDown(evt: KeyEvent, env: Env) returns (fired: Option<ButtonId>, prevented: bool)
      requires Valid()
      modifies this, doc
      ensures Valid()
      ensures fired == Dispatched(evt, ShortcutContext(old(doc.locked), twitter))
      ensures prevented == PreventsDefault(evt, ShortcutContext(old(doc.locked), twitter))
      ensures fired.Some? ==> Acted(fired.value, env)
      ensures fired.None? ==> Unchanged()
      ensures old(doc.locked) ==> old(doc).locked
    {
      var i := 0;
      while i < |Buttons|
        invariant 0 <= i <= |Buttons|
        invariant doc == old(doc) && unchanged(this, doc)
        invariant forall j :: 0 <= j < i ==> !Fires(Buttons[j], evt, ShortcutContext(doc.locked, twitter))
      {
        var button := Buttons[i];
        if button.shortcut.Some? && ShortcutMatches(button.shortcut.value, evt, ShortcutContext(doc.locked, twitter)) {
          prevented := !button.letBubble;
          RunAction(button.action, env);
          fired := Some(button.action);
          return;
        }
        i := i + 1;
      }
      fired, prevented := None, false;
    }
  }
}
