/** The vocabulary shared by the parser, the matcher and the recorder: the
    structured binding, the keyboard events the host delivers, the modifier key
    names and the special key names of the notation. */
module Keys {
  import opened Strings

  /** One chord: four modifier flags and a key (kikey.js:70, src/kikey.ts:8-14). */
  datatype Binding = Binding(ctrlKey: bool, shiftKey: bool, altKey: bool, metaKey: bool, key: string)

  /** The two event types the engine listens for. */
  datatype EventType = KeyDown | KeyUp

  /** The part of a host `KeyboardEvent` the engine reads. `key` is as the host
      reports it (for example "Control", "a", " ", "ArrowLeft"). */
  datatype KeyEvent = KeyEvent(kind: EventType, ctrlKey: bool, shiftKey: bool, altKey: bool, metaKey: bool, key: string)

  /** Multi-character key names the notation accepts (kikey.js:4-32). */
  const SpecialKeys: set<string> := {
    "space", "dash", "arrowleft", "arrowright", "arrowup", "arrowdown",
    "backspace", "enter", "escape", "capslock", "tab", "home", "pageup",
    "pagedown", "end", "f1", "f2", "f3", "f4", "f5", "f6", "f7", "f8", "f9",
    "f10", "f11", "f12"
  }

  /** The lower-cased names of the four modifier keys. */
  const ModifierNames: set<string> := {"control", "shift", "alt", "meta"}

  /** `isModifierKey`: the key names a modifier, in any letter case. */
  predicate IsModifierKey(key: string)
  {
    Lower(key) in ModifierNames
  }

  /** A special name is a word: longer than one character, without `-` or space. */
  lemma SpecialKeyIsWord(k: string)
    requires k in SpecialKeys
    ensures |k| > 1 && '-' !in k && ' ' !in k
  {
  }

  /** A modifier name is a word of its own: longer than one character and not a
      special name. */
  lemma ModifierNotSpecial(key: string)
    requires key in ModifierNames
    ensures |key| > 1 && key !in SpecialKeys
  {
  }

  /** The binding a key-down event would have to equal to match: its four flags and
      its lower-cased key. */
  function EventBinding(e: KeyEvent): Binding
  {
    Binding(e.ctrlKey, e.shiftKey, e.altKey, e.metaKey, Lower(e.key))
  }
}
