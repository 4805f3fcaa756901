/** The light/dark switch: the theme is kept in local storage under one key
    and shown through the `data-theme` attribute of the document element. */
module ThemeToggle {

  import opened Wrappers

  const ThemeKey := "theme"
  const Light := "light"
  const Dark := "dark"

  /** `getSavedTheme`: the stored value, or `light` when it is missing or
      empty (both falsy). */
  function SavedTheme(storage: map<string, string>): (t: string)
    ensures ThemeKey in storage && storage[ThemeKey] != "" ==> t == storage[ThemeKey]
    ensures ThemeKey !in storage || storage[ThemeKey] == "" ==> t == Light
    ensures t != ""
  {
    if ThemeKey in storage && storage[ThemeKey] != "" then storage[ThemeKey] else Light
  }

  /** The theme `toggleTheme` switches to. */
  function Toggled(theme: string): (t: string)
    ensures theme == Dark <==> t == Light
    ensures t == Light || t == Dark
  {
    if theme == Dark then Light else Dark
  }

  /** Toggling twice gives back exactly the two themes the page knows;
      any other stored value ends up as `dark`. */
  lemma ToggledTwice(theme: string)
    ensures Toggled(Toggled(theme)) == theme <==> theme == Light || theme == Dark
    ensures Toggled(Toggled(theme)) == Dark || Toggled(Toggled(theme)) == Light
  {
  }

  /** The `data-theme` attribute `applyTheme` leaves: set to `dark` exactly
      for the dark theme, removed otherwise. */
  function DataTheme(theme: string): (a: Option<string>)
    ensures a.Some? <==> theme == Dark
    ensures a.Some? ==> a.value == Dark
  {
    if theme == Dark then Some(Dark) else None
  }

  /** The page: its local storage and its document element's attribute. */
  class Page {
    var storage: map<string, string>
    var dataTheme: Option<string>

    /** `initTheme`: the saved theme is applied when the script loads. */
    constructor (storage: map<string, string>)
      ensures this.storage == storage
      ensures dataTheme == DataTheme(SavedTheme(storage))
    {
      this.storage := storage;
      dataTheme := DataTheme(SavedTheme(storage));
    }

    /** `applyTheme`. */
    method ApplyTheme(theme: string)
      modifies this`dataTheme
      ensures dataTheme.Some? <==> theme == Dark
      ensures dataTheme == DataTheme(theme)
    {
      if theme == Dark {
        dataTheme := Some(Dark);
      } else {
        dataTheme := None;
      }
    }

    /** `saveTheme`. */
    method SaveTheme(theme: string)
      modifies this`storage
      ensures storage == old(storage)[ThemeKey := theme]
    {
      storage := storage[ThemeKey := theme];
    }

    /** `toggleTheme`: the new theme is shown and saved, so the stored theme
        and the shown one agree afterwards. */
    method ToggleTheme()
      modifies this
      ensures var t := Toggled(SavedTheme(old(storage)));
              storage == old(storage)[ThemeKey := t] && dataTheme == DataTheme(t)
      ensures dataTheme == DataTheme(SavedTheme(storage))
    {
      var currentTheme := SavedTheme(storage);
      var newTheme := if currentTheme == Dark then Light else Dark;
      ApplyTheme(newTheme);
      SaveTheme(newTheme);
    }

    /** Two clicks of the toggle button bring back the theme shown before
        them, from either theme. */
    method ToggleTwice()
      modifies this
      requires SavedTheme(storage) == Light || SavedTheme(storage) == Dark
      ensures SavedTheme(storage) == SavedTheme(old(storage))
      ensures dataTheme == DataTheme(SavedTheme(old(storage)))
    {
      ToggleTheme();
      ToggleTheme();
    }
  }
}
