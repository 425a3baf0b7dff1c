/**
 * The colour-theme store (`useThemeStore`): one field, initialised from the
 * `theme-storage` record and flipped by `toggleTheme`, which writes the new
 * theme back.
 */
module ThemeStore {
  import opened Text

  /**
   * What browser storage yields under `theme-storage`: nothing, text that
   * does not parse to a record with a `state` (the `catch` branch), or the
   * record's `state.theme` (`None` when the record has no theme field).
   */
  datatype StoredTheme = NothingStored | Malformed | Parsed(theme: Option<string>)

  /** `getInitialTheme`: the stored theme, or `dark` when nothing usable is stored. */
  function InitialTheme(stored: StoredTheme): (t: Option<string>)
    ensures stored.NothingStored? || stored.Malformed? ==> t == Some("dark")
    ensures stored.Parsed? ==> t == stored.theme
  {
    match stored
    case Parsed(theme) => theme
    case _ => Some("dark")
  }

  /** The theme `toggleTheme` switches to: `light` after `dark`, `dark` after anything else. */
  function Toggled(theme: Option<string>): (t: string)
    ensures t == "light" <==> theme == Some("dark")
    ensures t == "dark" || t == "light"
  {
    if theme == Some("dark") then "light" else "dark"
  }

  /** Toggling twice from either real theme comes back to it. */
  lemma ToggleTwice(theme: string)
    requires theme == "dark" || theme == "light"
    ensures Toggled(Some(Toggled(Some(theme)))) == theme
  {
  }

  /** After one toggle, whatever the start, the theme alternates between the two real themes. */
  lemma ToggleSettles(theme: Option<string>)
    ensures var once := Toggled(theme);
      Toggled(Some(Toggled(Some(once)))) == once && Toggled(Some(once)) != once
  {
  }

  class Theme {
    /** `state.theme`; `None` is a record without a theme. */
    var theme: Option<string>
    /** What browser storage holds under `theme-storage`. */
    ghost var persisted: StoredTheme

    constructor (stored: StoredTheme)
      ensures theme == InitialTheme(stored) && persisted == stored
    {
      theme := InitialTheme(stored);
      persisted := stored;
    }

    /** `toggleTheme`: switches the theme and writes the new theme to storage. */
    method ToggleTheme()
      modifies this
      ensures theme == Some(Toggled(old(theme)))
      ensures persisted == Parsed(theme)
      ensures InitialTheme(persisted) == theme
    {
      var newTheme := if theme == Some("dark") then "light" else "dark";
      persisted := Parsed(Some(newTheme));
      theme := Some(newTheme);
    }
  }
}
