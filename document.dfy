/**
 * `haste_document`: one paste, with its `locked`, `key` and `data` fields.
 * The server and the highlighter are not called: the server's reply to a
 * request is an input of the method that issues the request, and the
 * highlighter is a value of type `Highlighter`.
 */
module HasteDocument {
  import opened Wrappers
  import opened JsString

  /** What hljs returns: the rendered markup and the language it used, if any. */
  datatype Highlight = Highlight(value: string, language: Option<string>)

  /**
   * hljs. `named(lang, text)` is `hljs.highlight(lang, text)`, `None` where that call
   * throws (an unknown language name, say); `auto(text)` is `hljs.highlightAuto(text)`.
   */
  datatype Highlighter = Highlighter(named: (string, string) -> Option<Highlight>, auto: string -> Highlight)

  /** The reply to `GET /documents/<key>`: a body with `data`, or the error callback. */
  datatype LoadReply = Found(data: string) | NotFound

  /** The reply to `POST /documents`: a body with the new `key`, or nothing (no error handler is installed). */
  datatype SaveReply = Created(key: string) | NoReply

  /** The object passed to a `load` or `save` callback. */
  datatype View = View(value: string, key: string, language: Option<string>)

  /**
   * What a call of `save` leads to: `Refused` is its synchronous `return false`;
   * `NoCallback` is a request whose callback never runs; `Saved` is the callback's argument.
   */
  datatype SaveOutcome = Refused | NoCallback | Saved(view: View)

  /** The highlighting step of `load`: the hint when it is given and hljs accepts it, auto-detection otherwise. */
  function Highlighted(hl: Highlighter, lang: Option<string>, text: string): Highlight
  {
    if Truthy(lang) then
      match hl.named(lang.value, text)
      case Some(high) => high
      case None => hl.auto(text)
    else hl.auto(text)
  }

  /** The object `load` hands to its callback on success. */
  function LoadedView(hl: Highlighter, k: string, lang: Option<string>, text: string): (v: View)
    ensures v.key == k
    ensures v.value == Highlighted(hl, lang, text).value
    // the view names a language exactly when the highlighter or the hint does, and no other one
    ensures Truthy(v.language) <==> Truthy(Highlighted(hl, lang, text).language) || Truthy(lang)
    ensures v.language == Highlighted(hl, lang, text).language || v.language == lang
    // the highlighter's language wins over the hint
    ensures Truthy(Highlighted(hl, lang, text).language) ==> v.language == Highlighted(hl, lang, text).language
  {
    var high := Highlighted(hl, lang, text);
    View(high.value, k, Or(high.language, lang))
  }

  /** The object `save` hands to its callback: the fresh text is always auto-detected. */
  function SavedView(hl: Highlighter, k: string, text: string): View
  {
    View(hl.auto(text).value, k, hl.auto(text).language)
  }

  /** A hint that hljs accepts gives its own markup, and its language unless hljs names none. */
  lemma AcceptedHintUsed(hl: Highlighter, k: string, lang: Option<string>, text: string, h: Highlight)
    requires Truthy(lang) && hl.named(lang.value, text) == Some(h)
    ensures LoadedView(hl, k, lang, text).value == h.value
    ensures Truthy(h.language) ==> LoadedView(hl, k, lang, text).language == h.language
    ensures !Truthy(h.language) ==> LoadedView(hl, k, lang, text).language == lang
  {
  }

  /**
   * Without a truthy hint, hljs is never asked for a named language: the markup is
   * auto-detected, and the view names a language exactly when auto-detection does.
   */
  lemma NoHintAutoDetects(hl: Highlighter, k: string, lang: Option<string>, text: string)
    requires !Truthy(lang)
    ensures LoadedView(hl, k, lang, text).value == hl.auto(text).value
    ensures Truthy(LoadedView(hl, k, lang, text).language) <==> Truthy(hl.auto(text).language)
  {
  }

  /** A hint that hljs rejects never reaches the caller: the view is auto-detected and names the hint only when auto-detection names nothing. */
  lemma RejectedHintFallsBack(hl: Highlighter, k: string, lang: Option<string>, text: string)
    requires Truthy(lang) && hl.named(lang.value, text).None?
    ensures LoadedView(hl, k, lang, text).value == hl.auto(text).value
    ensures LoadedView(hl, k, lang, text).language == Or(hl.auto(text).language, lang)
  {
  }

  class Document {
    var locked: bool
    var key: Option<string>
    var data: Option<string>

    /** A locked document always has its key and its text. */
    ghost predicate Valid()
      reads this
    {
      locked ==> key.Some? && data.Some?
    }

    /** `new haste_document()`: unlocked, without key or text. */
    constructor ()
      ensures Valid()
      ensures !locked && key == None && data == None
    {
      locked := false;
      key := None;
      data := None;
    }

    /** `load(k, callback, lang)`, with the server's reply given; `ret` is the callback's argument (`None` for `false`). */
    method Load(hl: Highlighter, k: string, lang: Option<string>, reply: LoadReply) returns (ret: Option<View>)
      requires Valid()
      modifies this
      ensures Valid()
      ensures old(locked) ==> locked
      ensures reply.NotFound? ==> ret == None && unchanged(this)
      ensures reply.Found? ==>
        locked && key == Some(k) && data == Some(reply.data)
        && ret == Some(LoadedView(hl, k, lang, reply.data))
    {
      match reply
      case NotFound =>
        ret := None;
      case Found(text) =>
        locked := true;
        key := Some(k);
        data := Some(text);
        ret := Some(LoadedView(hl, k, lang, text));
    }

    /** `save(text, callback)`, with the server's reply given. */
    method Save(hl: Highlighter, text: string, reply: SaveReply) returns (r: SaveOutcome)
      requires Valid()
      modifies this
      ensures Valid()
      ensures old(locked) ==> locked
      ensures old(locked) ==> r == Refused && unchanged(this)
      ensures !old(locked) && reply.NoReply? ==>
        r == NoCallback && !locked && key == old(key) && data == Some(text)
      ensures !old(locked) && reply.Created? ==>
        locked && key == Some(reply.key) && data == Some(text)
        && r == Saved(SavedView(hl, reply.key, text))
    {
      if locked {
        return Refused;
      }
      data := Some(text);
      match reply
      case NoReply =>
        r := NoCallback;
      case Created(k) =>
        locked := true;
        key := Some(k);
        r := Saved(SavedView(hl, k, text));
    }
  }
}
