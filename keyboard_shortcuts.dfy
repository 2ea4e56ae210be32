/**
 * The key-down handler of the shortcut hook (src/hooks/useKeyboardShortcuts.ts):
 * which registered shortcut, if any, a key press fires. Handlers are not
 * modelled; the handler fired is identified by the shortcut's position.
 */
module KeyboardShortcuts {
  import opened Options
  import opened Strings

  /** A registered shortcut; an absent modifier flag is `false`. */
  datatype Shortcut = Shortcut(key: string, ctrlKey: bool, shiftKey: bool, metaKey: bool)

  /** The parts of a `KeyboardEvent` the handler reads. */
  datatype KeyPress = KeyPress(key: string, ctrlKey: bool, shiftKey: bool, metaKey: bool)

  /** A ctrl shortcut accepts Ctrl or Cmd; any other needs both released. */
  predicate CtrlMatch(s: Shortcut, e: KeyPress) {
    if s.ctrlKey then e.ctrlKey || e.metaKey else !e.ctrlKey && !e.metaKey
  }

  predicate ShiftMatch(s: Shortcut, e: KeyPress) {
    if s.shiftKey then e.shiftKey else !e.shiftKey
  }

  predicate MetaMatch(s: Shortcut, e: KeyPress) {
    if s.metaKey then e.metaKey else !e.metaKey
  }

  /** The test of one loop iteration: the key, compared case-insensitively, and the three modifier tests. */
  predicate Matches(s: Shortcut, e: KeyPress) {
    ToLower(e.key) == ToLower(s.key) && CtrlMatch(s, e) && ShiftMatch(s, e) && MetaMatch(s, e)
  }

  /**
   * What a ctrl shortcut without meta accepts: Ctrl held and Cmd released, so
   * Cmd on its own never fires it; shift must agree exactly.
   */
  lemma CtrlOnlyShortcut(s: Shortcut, e: KeyPress)
    requires s.ctrlKey && !s.metaKey
    ensures Matches(s, e) <==> ToLower(e.key) == ToLower(s.key) && e.ctrlKey && !e.metaKey && e.shiftKey == s.shiftKey
  {
  }

  /** A shortcut without modifiers fires only when no modifier is held. */
  lemma PlainShortcut(s: Shortcut, e: KeyPress)
    requires !s.ctrlKey && !s.shiftKey && !s.metaKey
    ensures Matches(s, e) <==> ToLower(e.key) == ToLower(s.key) && !e.ctrlKey && !e.shiftKey && !e.metaKey
  {
  }

  /** A meta shortcut without ctrl never fires: its ctrl test wants Cmd released, its meta test wants it held. */
  lemma MetaWithoutCtrlNeverFires(s: Shortcut, e: KeyPress)
    requires s.metaKey && !s.ctrlKey
    ensures !Matches(s, e)
  {
  }

  /** Letter case does not matter to the key comparison. */
  lemma CaseInsensitive(s: Shortcut, e: KeyPress, key: string)
    requires ToLower(key) == ToLower(e.key)
    ensures Matches(s, e.(key := key)) == Matches(s, e)
  {
  }

  /**
   * `handleKeyDown`: walks the shortcuts in order and stops at the first that
   * matches, whose handler fires; the default action is prevented exactly when
   * one matched.
   */
  method HandleKeyDown(shortcuts: seq<Shortcut>, e: KeyPress) returns (fired: Option<nat>, preventDefault: bool)
    ensures fired.None? <==> forall i :: 0 <= i < |shortcuts| ==> !Matches(shortcuts[i], e)
    ensures fired.Some? ==> fired.value < |shortcuts| && Matches(shortcuts[fired.value], e)
    ensures fired.Some? ==> forall i :: 0 <= i < fired.value ==> !Matches(shortcuts[i], e)
    ensures preventDefault <==> fired.Some?
  {
    fired := None;
    preventDefault := false;
    var i := 0;
    while i < |shortcuts|
      invariant 0 <= i <= |shortcuts|
      invariant forall j :: 0 <= j < i ==> !Matches(shortcuts[j], e)
    {
      var s := shortcuts[i];
      var ctrlMatch := if s.ctrlKey then e.ctrlKey || e.metaKey else !e.ctrlKey && !e.metaKey;
      var shiftMatch := if s.shiftKey then e.shiftKey else !e.shiftKey;
      var metaMatch := if s.metaKey then e.metaKey else !e.metaKey;
      if ToLower(e.key) == ToLower(s.key) && ctrlMatch && shiftMatch && metaMatch {
        preventDefault := true;
        fired := Some(i);
        break;
      }
      i := i + 1;
    }
  }
}
