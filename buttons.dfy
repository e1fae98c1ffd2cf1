/**
 * The button table built by `configureButtons`, the keyboard shortcut of each
 * entry, and the first-match-wins search that the keydown handler performs.
 */
module HasteButtons {
  import opened Wrappers

  /** The five functions of the key box, named by their CSS class. */
  datatype ButtonId = Save | New | Duplicate | Twitter | Link

  /** The parts of a keydown event that the shortcuts inspect. */
  datatype KeyEvent = KeyEvent(ctrlKey: bool, keyCode: int)

  /** The session state the shortcut closures read: `doc.locked` and `options.twitter`. */
  datatype ShortcutContext = ShortcutContext(locked: bool, twitter: bool)

  /** The shortcut functions of the table, one per entry that has one. */
  datatype Shortcut = SaveKeys | NewKeys | DuplicateKeys | TwitterKeys

  /** The four `shortcut` closures of the table: every one needs the control key, and Duplicate and Twitter a locked document. */
  function ShortcutMatches(sc: Shortcut, evt: KeyEvent, ctx: ShortcutContext): (accepted: bool)
    ensures accepted ==> evt.ctrlKey && evt.keyCode in {68, 76, 78, 83, 84}
    ensures accepted && (sc == DuplicateKeys || sc == TwitterKeys) ==> ctx.locked
    ensures accepted && sc == TwitterKeys ==> ctx.twitter
  {
    match sc
    case SaveKeys => evt.ctrlKey && (evt.keyCode == 76 || evt.keyCode == 83)
    case NewKeys => evt.ctrlKey && evt.keyCode == 78
    case DuplicateKeys => ctx.locked && evt.ctrlKey && evt.keyCode == 68
    case TwitterKeys => ctx.twitter && ctx.locked && evt.ctrlKey && evt.keyCode == 84
  }

  /** One record of `this.buttons` (`labelText` is its `label`); its `action` is the session method the entry runs. */
  datatype Button = Button(
    action: ButtonId, labelText: string, shortcutDescription: Option<string>,
    shortcut: Option<Shortcut>, letBubble: bool)

  /** `this.buttons`, in table order. */
  const Buttons: seq<Button> := [
    Button(Save, "Save", Some("control + s"), Some(SaveKeys), false),
    Button(New, "New", Some("control + n"), Some(NewKeys), false),
    Button(Duplicate, "Duplicate & Edit", Some("control + d"), Some(DuplicateKeys), false),
    Button(Twitter, "Twitter", Some("control + t"), Some(TwitterKeys), false),
    Button(Link, "Copy URL", None, None, true)
  ]

  /**
   * The table has one entry per key-box element, in the same order; the entries with a
   * shortcut are exactly those with a shortcut description, and the only entry without
   * one, Copy URL, is the only one that lets its event bubble.
   */
  lemma ButtonTable()
    ensures |Buttons| == |Elements|
    ensures forall i :: 0 <= i < |Buttons| ==> Buttons[i].action == Elements[i]
    ensures forall i :: 0 <= i < |Buttons| ==> (Buttons[i].shortcut.Some? <==> Buttons[i].shortcutDescription.Some?)
    ensures forall i :: 0 <= i < |Buttons| ==> (Buttons[i].shortcut.None? <==> Buttons[i].letBubble)
    ensures forall i :: 0 <= i < |Buttons| ==> (Buttons[i].letBubble <==> Buttons[i].action == Link)
  {
  }

  /** The elements `#box2 .function` that `configureKey` walks, one per button. */
  const Elements: seq<ButtonId> := [Save, New, Duplicate, Twitter, Link]

  /** Every button has its element in the key box. */
  lemma EveryButtonHasElement(b: ButtonId)
    ensures b in Elements
  {
    match b
    case Save => assert Elements[0] == b;
    case New => assert Elements[1] == b;
    case Duplicate => assert Elements[2] == b;
    case Twitter => assert Elements[3] == b;
    case Link => assert Elements[4] == b;
  }

  /** The class lists given to `configureKey` by `lightKey` and `fullKey`. */
  const LightKey: seq<ButtonId> := [New, Save]
  const FullKey: seq<ButtonId> := [New, Duplicate, Twitter, Link]

  /** `button.shortcut && button.shortcut(evt)`. */
  function Fires(b: Button, evt: KeyEvent, ctx: ShortcutContext): (fires: bool)
    ensures fires ==> b.shortcut.Some? && evt.ctrlKey
    ensures fires <==> b.shortcut.Some? && ShortcutMatches(b.shortcut.value, evt, ctx)
  {
    b.shortcut.Some? && ShortcutMatches(b.shortcut.value, evt, ctx)
  }

  /** The index of the first button whose shortcut accepts the event, if any. */
  function FirstMatch(bs: seq<Button>, evt: KeyEvent, ctx: ShortcutContext): (r: Option<nat>)
    ensures r.Some? ==> r.value < |bs| && Fires(bs[r.value], evt, ctx)
    ensures r.Some? ==> forall j :: 0 <= j < r.value ==> !Fires(bs[j], evt, ctx)
    ensures r.None? <==> forall j :: 0 <= j < |bs| ==> !Fires(bs[j], evt, ctx)
  {
    if bs == [] then None
    else if Fires(bs[0], evt, ctx) then Some(0)
    else
      match FirstMatch(bs[1..], evt, ctx)
      case None => None
      case Some(i) => Some(i + 1)
  }

  /** The action a keydown runs: that of the first matching button. */
  function Dispatched(evt: KeyEvent, ctx: ShortcutContext): (a: Option<ButtonId>)
    ensures a.Some? <==> FirstMatch(Buttons, evt, ctx).Some?
  {
    match FirstMatch(Buttons, evt, ctx)
    case None => None
    case Some(i) => Some(Buttons[i].action)
  }

  /** Whether the keydown handler calls `evt.preventDefault()`: a button matched and it does not let the event bubble. */
  function PreventsDefault(evt: KeyEvent, ctx: ShortcutContext): (p: bool)
    ensures p ==> Dispatched(evt, ctx).Some?
  {
    match FirstMatch(Buttons, evt, ctx)
    case None => false
    case Some(i) => !Buttons[i].letBubble
  }

  /**
   * The keyboard table, written out: which action each key combination runs.
   * Duplicate and Twitter need a locked document, Twitter also the option; Copy URL
   * has no shortcut, so every dispatched event has its default prevented.
   */
  lemma {:induction false} DispatchTable(evt: KeyEvent, ctx: ShortcutContext)
    ensures Dispatched(evt, ctx) ==
      if !evt.ctrlKey then None
      else if evt.keyCode == 76 || evt.keyCode == 83 then Some(Save)
      else if evt.keyCode == 78 then Some(New)
      else if evt.keyCode == 68 && ctx.locked then Some(Duplicate)
      else if evt.keyCode == 84 && ctx.locked && ctx.twitter then Some(Twitter)
      else None
    ensures PreventsDefault(evt, ctx) <==> Dispatched(evt, ctx).Some?
  {
    var r := FirstMatch(Buttons, evt, ctx);
    assert !Fires(Buttons[4], evt, ctx);
    if r.Some? {
      assert r.value < 4;
    }
  }

  /** On an unlocked document the keyboard can only save or start a new document. */
  lemma UnlockedKeyboard(evt: KeyEvent, ctx: ShortcutContext)
    requires !ctx.locked
    ensures Dispatched(evt, ctx) in {None, Some(Save), Some(New)}
  {
    DispatchTable(evt, ctx);
  }

  /** No two shortcuts of the table accept the same event, so the table order never decides between them. */
  lemma ShortcutsExclusive(evt: KeyEvent, ctx: ShortcutContext, i: nat, j: nat)
    requires i < |Buttons| && j < |Buttons|
    requires Fires(Buttons[i], evt, ctx) && Fires(Buttons[j], evt, ctx)
    ensures i == j
  {
  }
}
