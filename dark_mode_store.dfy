/**
 * The dark-mode store (src/stores/darkModeStore.ts): the user's preference and
 * whether the page is dark. The system's `prefers-color-scheme: dark` answer is
 * a parameter; the document class update and the media-query listener are not
 * part of this model.
 */
module DarkModeStore {
  datatype Preference = LightMode | DarkMode | System

  /** The darkness a preference gives, with the system's answer for `System`. */
  function DarkFor(preference: Preference, systemPrefersDark: bool): (dark: bool)
    ensures preference == System ==> dark == systemPrefersDark
    ensures preference != System ==> (dark <==> preference == DarkMode)
  {
    if preference == System then systemPrefersDark else preference == DarkMode
  }

  /**
   * The preference `toggleDarkMode` sets: the other explicit mode, or, from
   * `System`, the mode opposite to what is shown. It is never `System`, and the
   * darkness it gives is the opposite of what was shown.
   */
  function Toggled(preference: Preference, isDark: bool): (r: Preference)
    ensures r != System
    ensures preference != System ==> r != preference
    ensures preference == System ==> (DarkFor(r, false) <==> !isDark)
  {
    match preference
    case System => if isDark then LightMode else DarkMode
    case LightMode => DarkMode
    case DarkMode => LightMode
  }

  /** Toggling an explicit preference twice restores it. */
  lemma ToggleTwice(preference: Preference, isDark: bool, isDark': bool)
    requires preference != System
    ensures Toggled(Toggled(preference, isDark), isDark') == preference
  {
  }

  /** In a consistent state, every toggle flips what is shown. */
  lemma ToggleFlips(preference: Preference, isDark: bool, systemPrefersDark: bool)
    requires preference != System ==> isDark == (preference == DarkMode)
    ensures DarkFor(Toggled(preference, isDark), systemPrefersDark) == !isDark
  {
  }

  class DarkModeState {
    var preference: Preference
    var isDark: bool

    /** An explicit preference decides the darkness. */
    predicate Valid()
      reads this
    {
      preference != System ==> isDark == (preference == DarkMode)
    }

    /** The initial state: follow the system, light until the preference is applied. */
    constructor ()
      ensures preference == System && !isDark && Valid()
    {
      preference := System;
      isDark := false;
    }

    /** Stores the preference, then the darkness it gives. */
    method SetPreference(p: Preference, systemPrefersDark: bool)
      modifies this
      ensures preference == p
      ensures isDark == DarkFor(p, systemPrefersDark)
      ensures Valid()
    {
      preference := p;
      if p == System {
        isDark := systemPrefersDark;
      } else {
        isDark := p == DarkMode;
      }
    }

    /** Switches to the toggled preference; in a valid state what is shown flips. */
    method ToggleDarkMode()
      modifies this
      ensures preference == Toggled(old(preference), old(isDark))
      ensures isDark == (preference == DarkMode)
      ensures Valid()
      ensures old(Valid()) ==> isDark == !old(isDark)
    {
      var newPreference := Toggled(preference, isDark);
      if Valid() {
        ToggleFlips(preference, isDark, false);
      }
      // The new preference is explicit, so the system's answer is not consulted.
      SetPreference(newPreference, false);
    }
  }
}
