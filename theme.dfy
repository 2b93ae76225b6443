/** The light/dark theme switch (`ThemeManager` in js/themeManager.js).
    The stored preference under `qrcode_theme` is the field `saved`, with
    "" for no entry (every read of it treats an empty string as absent);
    `systemPreference` is "" until it has been detected. The page is
    represented by the `data-theme` attribute, the `theme-color` meta
    content and the toggle button's label that `applyTheme` writes. */
module Theme {
  import opened Wrappers

  predicate IsTheme(t: string) {
    t == "light" || t == "dark"
  }

  /** The other theme, as `toggleTheme` picks it. */
  function Toggled(t: string): (r: string)
    ensures IsTheme(r)
    ensures t == "dark" <==> r == "light"
  {
    if t == "dark" then "light" else "dark"
  }

  /** Toggling twice returns to a theme. */
  lemma ToggleTwice(t: string)
    requires IsTheme(t)
    ensures Toggled(Toggled(t)) == t
  {
  }

  /** The theme `loadTheme` settles on: a valid saved theme, else the
      system preference, else light. */
  function LoadedTheme(saved: string, systemPreference: string): (r: string)
    ensures IsTheme(saved) ==> r == saved
    ensures !IsTheme(saved) && systemPreference != "" ==> r == systemPreference
    ensures !IsTheme(saved) && systemPreference == "" ==> r == "light"
  {
    if saved != "" && IsTheme(saved) then saved
    else if systemPreference != "" then systemPreference
    else "light"
  }

  /** The settings object `importThemeSettings` reads; "" stands for a
      missing or falsy field. */
  datatype Settings = Settings(savedPreference: string, currentTheme: string)

  class ThemeManager {
    var currentTheme: string
    var systemPreference: string
    var saved: string
    /** `data-theme` on the document element, "" before the first apply. */
    var dataTheme: string
    /** The content of the `theme-color` meta element. */
    var themeColor: string
    /** The toggle button's `aria-label` and title. */
    var toggleLabel: string

    /** The current theme is always light or dark, and so is a detected
        system preference. */
    predicate Valid()
      reads this
    {
      IsTheme(currentTheme) && (systemPreference == "" || IsTheme(systemPreference))
    }

    /** A manager over the stored preference `stored`, before `init`. */
    constructor(stored: string)
      ensures Valid()
      ensures currentTheme == "light" && systemPreference == "" && saved == stored
      ensures dataTheme == "" && themeColor == "" && toggleLabel == ""
    {
      currentTheme := "light";
      systemPreference := "";
      saved := stored;
      dataTheme := "";
      themeColor := "";
      toggleLabel := "";
    }

    /** `detectSystemPreference()`, given whether the media query
        `(prefers-color-scheme: dark)` matches. */
    method DetectSystemPreference(prefersDark: bool)
      requires Valid()
      modifies this
      ensures Valid()
      ensures systemPreference == (if prefersDark then "dark" else "light")
      ensures currentTheme == old(currentTheme) && saved == old(saved)
      ensures dataTheme == old(dataTheme) && themeColor == old(themeColor) && toggleLabel == old(toggleLabel)
    {
      if prefersDark {
        systemPreference := "dark";
      } else {
        systemPreference := "light";
      }
    }

    /** `applyTheme(theme)`: marks the page and records the theme. */
    method ApplyTheme(theme: string)
      requires IsTheme(theme) && (systemPreference == "" || IsTheme(systemPreference))
      modifies this
      ensures Valid()
      ensures currentTheme == theme && dataTheme == theme
      ensures themeColor == (if theme == "dark" then "#000000" else "#ffffff")
      ensures toggleLabel == "Switch to " + Toggled(theme) + " mode"
      ensures saved == old(saved) && systemPreference == old(systemPreference)
    {
      dataTheme := theme;
      themeColor := if theme == "dark" then "#000000" else "#ffffff";
      toggleLabel := "Switch to " + (if theme == "dark" then "light" else "dark") + " mode";
      currentTheme := theme;
    }

    /** `loadTheme()` */
    method LoadTheme()
      requires Valid()
      modifies this
      ensures Valid()
      ensures currentTheme == LoadedTheme(saved, systemPreference) && dataTheme == currentTheme
      ensures saved == old(saved) && systemPreference == old(systemPreference)
    {
      if saved != "" && (saved == "light" || saved == "dark") {
        currentTheme := saved;
      } else {
        currentTheme := if systemPreference != "" then systemPreference else "light";
      }
      ApplyTheme(currentTheme);
    }

    /** `setTheme(theme)`: anything but light or dark changes nothing. */
    method SetTheme(theme: string)
      requires Valid()
      modifies this
      ensures Valid()
      ensures !IsTheme(theme) ==>
        currentTheme == old(currentTheme) && saved == old(saved) && dataTheme == old(dataTheme) &&
        themeColor == old(themeColor) && toggleLabel == old(toggleLabel)
      ensures IsTheme(theme) ==> currentTheme == theme && saved == theme && dataTheme == theme
      ensures systemPreference == old(systemPreference)
    {
      if theme != "light" && theme != "dark" {
        return;
      }
      ApplyTheme(theme);
      saved := theme;
    }

    /** `toggleTheme()`: switches to the other theme and saves it. */
    method ToggleTheme()
      requires Valid()
      modifies this
      ensures Valid()
      ensures currentTheme == Toggled(old(currentTheme)) && saved == currentTheme && dataTheme == currentTheme
      ensures systemPreference == old(systemPreference)
    {
      var newTheme := if currentTheme == "dark" then "light" else "dark";
      SetTheme(newTheme);
    }

    /** The `change` listener of `watchSystemPreference`: the new system
        preference is applied only when no theme is saved. */
    method OnSystemChange(matches: bool)
      requires Valid()
      modifies this
      ensures Valid()
      ensures systemPreference == (if matches then "dark" else "light") && saved == old(saved)
      ensures saved == "" ==> currentTheme == systemPreference && dataTheme == systemPreference
      ensures saved != "" ==>
        currentTheme == old(currentTheme) && dataTheme == old(dataTheme) &&
        themeColor == old(themeColor) && toggleLabel == old(toggleLabel)
    {
      systemPreference := if matches then "dark" else "light";
      if saved == "" {
        ApplyTheme(systemPreference);
      }
    }

    /** `isSystemPreference()` */
    function IsSystemPreference(): (r: bool)
      reads this
      ensures r <==> saved == ""
    {
      saved == ""
    }

    /** `resetToSystemPreference()`: forgets the saved theme and follows
        the system again. */
    method ResetToSystemPreference(prefersDark: bool)
      requires Valid()
      modifies this
      ensures Valid()
      ensures saved == "" && systemPreference == (if prefersDark then "dark" else "light")
      ensures currentTheme == systemPreference && dataTheme == systemPreference
    {
      saved := "";
      DetectSystemPreference(prefersDark);
      ApplyTheme(systemPreference);
    }

    /** `importThemeSettings(settings)`, with `None` for a value that is not
        an object: a saved preference is stored as it is and then loaded,
        which ignores an invalid one; otherwise a current theme is set. */
    method ImportThemeSettings(settings: Option<Settings>) returns (r: Result<bool, string>)
      requires Valid()
      modifies this
      ensures Valid()
      ensures settings.None? ==>
        r == Err("Invalid settings object") &&
        currentTheme == old(currentTheme) && saved == old(saved) && dataTheme == old(dataTheme)
      ensures settings.Some? ==> r == Ok(true)
      ensures settings.Some? && settings.value.savedPreference != "" ==>
        saved == settings.value.savedPreference && currentTheme == LoadedTheme(saved, systemPreference)
      ensures settings.Some? && settings.value.savedPreference == "" && IsTheme(settings.value.currentTheme) ==>
        saved == settings.value.currentTheme && currentTheme == settings.value.currentTheme
      ensures settings.Some? && settings.value.savedPreference == "" && !IsTheme(settings.value.currentTheme) ==>
        saved == old(saved) && currentTheme == old(currentTheme)
      ensures systemPreference == old(systemPreference)
    {
      if settings.None? {
        return Err("Invalid settings object");
      }
      if settings.value.savedPreference != "" {
        saved := settings.value.savedPreference;
        LoadTheme();
      } else if settings.value.currentTheme != "" {
        SetTheme(settings.value.currentTheme);
      }
      return Ok(true);
    }
  }
}
