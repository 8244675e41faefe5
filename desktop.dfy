/**
 * The desktop hooks: `useDesktop`, which tracks whether the window is at
 * least 1024 pixels wide, and `useKeyboardShortcut`, whose key handler is
 * installed only on desktop and fires when the key and the requested
 * modifiers match. Lower-casing is JavaScript's `toLowerCase`, taken here
 * as a parameter `lower`.
 */
module Desktop {

  const DesktopWidth: int := 1024

  /** The `useDesktop` state: false until the first check, then the result of the last one. */
  class DesktopState {
    var isDesktop: bool

    constructor()
      ensures !isDesktop
    {
      isDesktop := false;
    }

    /** `checkDesktop`, run on mount and on every resize. */
    method CheckDesktop(innerWidth: int)
      modifies this
      ensures isDesktop <==> innerWidth >= DesktopWidth
    {
      isDesktop := innerWidth >= DesktopWidth;
    }
  }

  /** The modifiers a shortcut asks for; a missing option is false. */
  datatype Options = Options(ctrl: bool, meta: bool, shift: bool)

  /** The fields of a `keydown` event the handler reads. */
  datatype KeyEvent = KeyEvent(key: string, ctrlKey: bool, metaKey: bool, shiftKey: bool)

  /** What a key press does: whether the default action is prevented, and how often the callback runs. */
  datatype Reaction = Reaction(defaultPrevented: bool, callbackCalls: nat)

  /** The handler's test: the key compared case-insensitively, each requested modifier held. */
  predicate ShortcutMatches(key: string, options: Options, event: KeyEvent, lower: string -> string)
  {
    var ctrlMatch := if options.ctrl then event.ctrlKey else true;
    var metaMatch := if options.meta then event.metaKey else true;
    var shiftMatch := if options.shift then event.shiftKey else true;
    lower(event.key) == lower(key) && ctrlMatch && metaMatch && shiftMatch
  }

  /**
   * A key press under `useKeyboardShortcut`: off desktop there is no
   * handler and nothing happens; on desktop a match prevents the default
   * action and runs the callback once.
   */
  function KeyPress(isDesktop: bool, key: string, options: Options, event: KeyEvent, lower: string -> string): (r: Reaction)
    ensures !isDesktop ==> r == Reaction(false, 0)
    ensures r.callbackCalls <= 1
    ensures r.defaultPrevented <==> r.callbackCalls == 1
    ensures r.callbackCalls == 1 <==>
      && isDesktop
      && lower(event.key) == lower(key)
      && (options.ctrl ==> event.ctrlKey)
      && (options.meta ==> event.metaKey)
      && (options.shift ==> event.shiftKey)
  {
    if isDesktop && ShortcutMatches(key, options, event, lower) then Reaction(true, 1) else Reaction(false, 0)
  }

  /** Holding more modifiers than the shortcut asks for never stops it from firing. */
  lemma ExtraModifiersIgnored(key: string, options: Options, event: KeyEvent, lower: string -> string,
                              ctrlKey: bool, metaKey: bool, shiftKey: bool)
    requires KeyPress(true, key, options, event, lower).callbackCalls == 1
    requires event.ctrlKey ==> ctrlKey
    requires event.metaKey ==> metaKey
    requires event.shiftKey ==> shiftKey
    ensures KeyPress(true, key, options, KeyEvent(event.key, ctrlKey, metaKey, shiftKey), lower).callbackCalls == 1
  {
  }

  /** A shortcut with no modifiers fires on its key whatever modifiers are held. */
  lemma PlainShortcut(key: string, event: KeyEvent, lower: string -> string)
    requires lower(event.key) == lower(key)
    ensures KeyPress(true, key, Options(false, false, false), event, lower) == Reaction(true, 1)
  {
  }
}
