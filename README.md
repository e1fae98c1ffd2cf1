# haste client: document lifecycle and action dispatch

A Dafny model of the browser client of the haste paste service (`static/application.js`):

- **`haste_document`** (`HasteDocument.Document`): one paste with `locked`, `key` and `data`. `load` fetches a paste, locks it and highlights it. `save` refuses a locked paste outright, otherwise posts the text and on success locks it under the new key.
- **`haste`** (`HasteSession.Session`): the session. It owns the current document, `document.title`, a log of `history.pushState` calls, the set of enabled key-box buttons, the text area, the rendered code and which panel is visible (`Editor` for the text area, `Viewer` for `#box`).
- **The button table and its dispatch** (`HasteButtons`): five records in order (Save, New, Duplicate & Edit, Twitter, Copy URL). Each has an optional shortcut predicate, an action and a `letBubble` flag. A keydown runs the action of the first button whose shortcut accepts the event; a click runs the action of an enabled button.
- **JavaScript string semantics used by the code** (`JsString`): the truthiness of a string-or-undefined, `a || b`, the `\s` class, the trim `replace(/^\s+|\s+$/g, '')` and `split('.', 2)`.
- **Keys and titles** (`HasteKeys`): `extensionMap`, `lookupExtension`, the key parsing of `loadDocument`, the `setTitle` rule and the history entries.

The server and the highlighter are inputs, not calls:

- The server's answer to a request is a parameter of the method that sends it: `LoadReply` is `Found(data)` or `NotFound`, and `SaveReply` is `Created(key)` or `NoReply`.
- hljs is a `Highlighter` value. `named(lang, text)` returns `None` where `hljs.highlight` throws. `auto(text)` is `hljs.highlightAuto`.
- `Session.Input` stands for the user typing into the text area. `HasteScenarios` holds four short scenarios that start from a fresh page.

What the code does, modelled as written:

- `key.split('.', 2)` keeps the text before the first dot as the id, and the text between the first and second dot as the extension. Anything after a second dot is dropped. So `abc.def.py` requests id `abc` with the extension `def`, which gives no hint (`HasteKeys.RequestTwoDots`). It is not split into id `abc.def` with hint `python`.
- The keyboard path never looks at the `enabled` class. Only the shortcut predicates restrict it: Duplicate and Twitter need a locked document, and Twitter also needs `options.twitter`. The Save action also checks that the trimmed text is not empty. Clicks, by contrast, run only enabled buttons.
- `save` installs no error handler. A failed POST runs no callback and changes nothing, except `doc.data`, which was assigned before the request. A save on a locked document is refused before any request.
- A successful `loadDocument` pushes no history entry. A failed one calls `newDocument()` with no argument, which pushes `/`.
- After a load or a save, the title is `appName - key[ - language]`. It is `appName` alone only when both the key and the language are empty.

## Model

| member | source | states |
|---|---|---|
| `JsString.Or` | static/application.js:26 | the JavaScript or of `a` and `b` is `a` when `a` is truthy and `b` otherwise; the result is truthy iff one of them is |
| `JsString.TrimStart` | static/application.js:222 | the result is a suffix of the text, everything dropped is `\s`, and the result does not start with `\s` |
| `JsString.TrimEnd` | static/application.js:222 | the result is a prefix of the text, everything dropped is `\s`, and the result does not end with `\s` |
| `JsString.Trim` | static/application.js:222 | the trimmed text is no longer than the input and neither starts nor ends with `\s` |
| `JsString.TrimIsInnerSlice` | static/application.js:222 | the trimmed text is one contiguous slice of the input, with only `\s` before and after it |
| `JsString.TrimEmptyIffBlank` | static/application.js:222 | trimming leaves `''` exactly when every character is `\s` (both directions) |
| `JsString.IndexOf` | static/application.js:143 | the position of the first separator, no separator before it, and the length exactly when there is none |
| `JsString.Split2` | static/application.js:143 | `split(sep, 2)` gives one part (the whole text) iff there is no separator; otherwise the separator-free text before the first separator and the text up to the next separator or the end |
| `JsString.Split2NoSeparator` | static/application.js:143 | a text without the separator splits into itself alone |
| `JsString.Split2OneSeparator` | static/application.js:143 | `a.b` splits into `[a, b]` |
| `JsString.Split2DropsTail` | static/application.js:143 | `a.b.tail` splits into `[a, b]`: the limit 2 drops everything after the second separator |
| `HasteDocument.LoadedView` | static/application.js:17-27 | the load view carries the requested key and the highlighted markup; it names a language exactly when the highlighter or the hint does, never any other, and the highlighter's language wins |
| `HasteDocument.AcceptedHintUsed` | static/application.js:17-27 | a truthy hint that hljs accepts gives that highlighting's markup, and its language unless it names none, in which case the hint |
| `HasteDocument.NoHintAutoDetects` | static/application.js:17-27 | without a truthy hint the markup is auto-detected and the view names a language exactly when auto-detection does |
| `HasteDocument.RejectedHintFallsBack` | static/application.js:17-27 | a hint that hljs rejects never reaches the caller: the markup is auto-detected and the language falls back to the hint only when auto-detection names none |
| `HasteDocument.Document.constructor` | static/application.js:3-5 | a new document is unlocked, with no key and no data |
| `HasteDocument.Document.Load` | static/application.js:8-33 | on `Found` the document is locked with the requested key and the server's data and the callback gets the load view; on `NotFound` the callback gets `false` and nothing changes; a lock is never undone |
| `HasteDocument.Document.Save` | static/application.js:36-57 | a locked document refuses with no change; otherwise `data` is set, and only `Created(k)` locks it with key `k` and hands over the save view; with no reply nothing else changes |
| `HasteKeys.ExtensionMap` | static/application.js:125-132 | the 31 extensions of `extensionMap` and the language each selects, in the source's table |
| `HasteKeys.LanguagesNonEmpty` | static/application.js:125-132 | every language in `extensionMap` is a non-empty name |
| `HasteKeys.LookupExtension` | static/application.js:135-138 | the table's language for a listed extension, `undefined` for an unknown or missing one; every hint found is truthy |
| `HasteKeys.RequestFor` | static/application.js:141-162 | the id requested is the key up to its first dot; it is the whole key iff the key has no dot, and then there is no hint |
| `HasteKeys.RequestWithoutExtension` | static/application.js:141-162 | a key without a dot is requested as it is, with no hint |
| `HasteKeys.RequestWithExtension` | static/application.js:141-162 | `id.ext` requests `id` with `lookupExtension(ext)` as hint |
| `HasteKeys.RequestDropsAfterSecondDot` | static/application.js:141-162 | `id.ext.rest` requests `id` with `lookupExtension(ext)`: the text after the second dot is dropped |
| `HasteKeys.UnlistedExtension` | static/application.js:135-138 | an extension missing from the table gives no hint |
| `HasteKeys.RequestKnownExtension` | static/application.js:141-162 | `abc.py` requests `abc` with hint `python` |
| `HasteKeys.RequestTwoDots` | static/application.js:141-162 | `abc.def.py` requests `abc` with no hint |
| `HasteKeys.RequestUnknownExtension` | static/application.js:141-162 | `id.ext` with an unlisted `ext` (such as `xyz.unknownext`) requests `id` with no hint |
| `HasteKeys.TitleFor` | static/application.js:77-80 | the title always starts with `appName`; it is `appName` alone exactly when `ext` is falsy, and `appName - ext` otherwise |
| `HasteKeys.Caption` | static/application.js:150-153 | the caption starts with the key and is longer than it exactly when a language is known |
| `HasteKeys.ShownTitle` | static/application.js:150-154 | the shown title is `appName - key[ - language]`, and `appName` alone only for an empty key without a language |
| `HasteKeys.SavedPathNamesKey` | static/application.js:185 | two saves push the same path `/key` exactly when their keys are equal |
| `HasteKeys.SavedEntryNotRoot` | static/application.js:115-185 | the entry a save pushes never has the root title `appName`, and its path is `/` only for the empty key |
| `HasteButtons.ShortcutMatches` | static/application.js:218-254 | every shortcut needs the control key and one of the key codes 68, 76, 78, 83, 84; Duplicate and Twitter need a locked document, Twitter also `options.twitter` |
| `HasteButtons.Buttons` | static/application.js:213-266 | the five entries of `this.buttons` in source order, with label, shortcut description, shortcut and `letBubble` |
| `HasteButtons.ButtonTable` | static/application.js:213-266 | one entry per key-box element in the same order; an entry has a shortcut iff it has a description, and Copy URL, the only one without, is the only one that lets its event bubble |
| `HasteButtons.Elements` | static/application.js:97 | the `#box2 .function` elements, one per button |
| `HasteButtons.EveryButtonHasElement` | static/application.js:97 | every button's class names an element of the key box |
| `HasteButtons.LightKey` | static/application.js:84 | the classes the light key enables: new and save |
| `HasteButtons.FullKey` | static/application.js:90 | the classes the full key enables: new, duplicate, twitter and link |
| `HasteButtons.Fires` | static/application.js:301 | a button fires exactly when it has a shortcut and that shortcut accepts the event, which needs the control key |
| `HasteButtons.FirstMatch` | static/application.js:299-307 | the least index whose button has a shortcut that accepts the event, or none when no button's does |
| `HasteButtons.Dispatched` | static/application.js:299-307 | an action runs exactly when some shortcut matches |
| `HasteButtons.PreventsDefault` | static/application.js:301-304 | the default is prevented only when an action runs |
| `HasteButtons.DispatchTable` | static/application.js:213-266 | the action for each key combination: ctrl+L/S saves, ctrl+N makes a new document, ctrl+D duplicates only when locked, ctrl+T tweets only when locked with the option set, anything else runs nothing; the default is prevented iff an action runs |
| `HasteButtons.UnlockedKeyboard` | static/application.js:241-254 | on an unlocked document the keyboard can only save or start a new document |
| `HasteButtons.ShortcutsExclusive` | static/application.js:218-254 | no key event is accepted by two shortcuts of the table |
| `HasteSession.Session.constructor` | static/application.js:61-74 | a fresh session with an empty unlocked document in the editor, title `appName`, the light key and no history |
| `HasteSession.Session.SetTitle` | static/application.js:77-80 | the title becomes `TitleFor(appName, ext)` |
| `HasteSession.Session.ConfigureKey` | static/application.js:95-107 | exactly the key-box elements whose class is listed end up enabled |
| `HasteSession.Session.LightKey` | static/application.js:83-86 | exactly New and Save are enabled |
| `HasteSession.Session.FullKey` | static/application.js:89-92 | exactly New, Duplicate, Twitter and Link are enabled |
| `HasteSession.Session.NewDocument` | static/application.js:111-122 | a fresh unlocked document, title `appName`, the light key, an empty text area in the editor, and `/` pushed unless `hideHistory`; the session invariant holds |
| `HasteSession.Session.LoadDocument` | static/application.js:141-163 | a fresh document is loaded under the key's id and hint; on success it is locked and the viewer shows its markup, with the title `appName - id[ - language]`, the full key and no history push; on failure it is `newDocument()` with `/` pushed |
| `HasteSession.Session.DuplicateDocument` | static/application.js:166-172 | nothing unless the document is locked; otherwise a fresh unlocked document in the editor whose text area holds the old data, with `/` pushed |
| `HasteSession.Session.LockDocument` | static/application.js:175-191 | the same document object is saved with the text area's text; refused or unanswered saves change nothing but `data`; a created key shows the viewer with title `appName - key[ - language]`, pushes `(appName-key, /key)` and enables the full key |
| `HasteSession.Session.RunAction` | static/application.js:213-266 | Save locks only when the trimmed text is non-empty, New runs `newDocument(!doc.key)`, Duplicate duplicates, Twitter and Copy URL change nothing; the invariant holds, the old document's lock is never undone and history only grows |
| `HasteSession.Session.Click` | static/application.js:274-279 | the default is always prevented; the action runs iff the button was enabled, otherwise nothing changes |
| `HasteSession.Session.KeyDown` | static/application.js:295-310 | the action run is that of the first matching button, computed from the lock state and the option and not from the enabled set; the default is prevented iff that button does not let the event bubble; with no match nothing changes |
| `HasteScenarios.MissingKey` | static/application.js:141-163 | loading a key the server lacks ends in an empty unlocked document in the editor with one root entry pushed |
| `HasteScenarios.SaveWithShortcut` | static/application.js:175-191 | ctrl+S on text the server stores as `key` ends locked in the viewer, titled `appName - key - language`, with `/key` pushed |
| `HasteScenarios.BlankSave` | static/application.js:218-225 | ctrl+S on white space alone fires Save and prevents the default, but makes no request and changes nothing |
| `HasteScenarios.DuplicateWhileUnlocked` | static/application.js:241-243 | ctrl+D on an unlocked document runs nothing and keeps the default |

## Left out

- The `$.ajax` transport and its asynchrony. Each request's reply is a parameter of the method that issues it, so overlapping requests and replies that arrive late for a replaced document are not modelled.
- hljs internals. `Highlighter.auto` is total: the model assumes `hljs.highlightAuto` never throws (a throw at line 21 or line 49 would escape the callback).
- `configureClip` and `removeClip` (lines 193-209): ZeroClipboard is a foreign library, and Copy URL's own action is empty.
- jQuery show, hide, focus and `html` rendering, and the mouseenter/mouseleave label tooltips (lines 280-291): these are presentation. The visible panel is the `panel` field. Hiding the Twitter button when `options.twitter` is off (lines 71-73) is presentation too: that element can still carry `enabled`.
- The tweet URL opened with `window.open` (line 257), and `baseUrl` (line 63), which only that URL uses. The Twitter action changes nothing in the model.
- The browser History API: its calls are modelled as an append-only log of `(title, path)` entries.
- The tab-key handler of the text area (lines 313-346): it is DOM selection and focus handling.
- `HasteSession.Session.constructor`: before the page's first `newDocument` or `loadDocument`, `haste` has no `doc`. The constructor therefore also does what `newDocument(true)` does.
- `HasteKeys.LookupExtension`: names inherited from `Object.prototype` (`constructor`, `toString`, …) are not modelled. The map holds only its 31 own keys, so `abc.constructor` gives no hint here, while in the browser it gives a truthy non-string value.
- Replies whose JSON fields are not strings (`res.data`, `res.key`) are not modelled: `Found` and `Created` carry strings.
