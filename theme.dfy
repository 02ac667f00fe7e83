/**
 * Light and dark themes: the data-mosaic-theme attribute on the document
 * element, the saved theme in localStorage under mosaic-theme, and the
 * mosaic-theme-change events.
 */
module Theme {
  import opened Strings

  /** toggleTheme's choice: light after dark, dark after anything else. */
  function Toggled(current: string): string {
    if current == "dark" then "light" else "dark"
  }

  /** Toggling twice from light or dark comes back; from any other theme it ends on light. */
  lemma ToggleTwice(t: string)
    ensures t in {"light", "dark"} ==> Toggled(Toggled(t)) == t
    ensures t !in {"light", "dark"} ==> Toggled(Toggled(t)) == "light" && Toggled(t) == "dark"
    ensures Toggled(t) != t || t !in {"light", "dark"}
  {
  }

  /**
   * The theme initTheme applies: a non-empty saved theme, then dark when the
   * system prefers it (and system preference is respected and can be asked),
   * then the given default, then light.
   */
  function InitialTheme(saved: Option<string>, respectSystem: bool, canMatch: bool, prefersDark: bool, default: string): string {
    if saved.Some? && saved.value != "" then saved.value
    else if respectSystem && canMatch && prefersDark then "dark"
    else if default != "" then default
    else "light"
  }

  /** The order of precedence, each step read against the ones before it. */
  lemma InitialPrecedence(saved: Option<string>, respectSystem: bool, canMatch: bool, prefersDark: bool, default: string)
    ensures saved.Some? && saved.value != "" ==> InitialTheme(saved, respectSystem, canMatch, prefersDark, default) == saved.value
    ensures (saved.None? || saved.value == "") && respectSystem && canMatch && prefersDark ==>
      InitialTheme(saved, respectSystem, canMatch, prefersDark, default) == "dark"
    ensures (saved.None? || saved.value == "") && !(respectSystem && canMatch && prefersDark) ==>
      InitialTheme(saved, respectSystem, canMatch, prefersDark, default) == (if default == "" then "light" else default)
    ensures InitialTheme(saved, respectSystem, canMatch, prefersDark, default) != ""
  {
  }

  /**
   * The document element's attribute (None when absent), the stored theme
   * (None when nothing is stored) and the themes of the change events
   * dispatched so far.
   */
  class Document {
    var attribute: Option<string>
    var stored: Option<string>
    var events: seq<string>

    constructor(attribute: Option<string>, stored: Option<string>)
      ensures this.attribute == attribute && this.stored == stored && events == []
    {
      this.attribute := attribute;
      this.stored := stored;
      events := [];
    }

    /** getTheme: the attribute, or light when it is absent or empty. */
    function GetTheme(): (t: string)
      reads this
      ensures t != ""
      ensures attribute.Some? && attribute.value != "" ==> t == attribute.value
    {
      if attribute.Some? && attribute.value != "" then attribute.value else "light"
    }

    /**
     * setTheme: light removes the attribute, any other theme sets it; the
     * theme is stored when persist holds; a change event follows.
     */
    method SetTheme(theme: string, persist: bool)
      modifies this
      ensures attribute == if theme == "light" then None else Some(theme)
      ensures stored == if persist then Some(theme) else old(stored)
      ensures events == old(events) + [theme]
      ensures theme != "" ==> GetTheme() == theme
      ensures theme == "" ==> GetTheme() == "light"
    {
      if theme == "light" {
        attribute := None;
      } else {
        attribute := Some(theme);
      }
      if persist {
        stored := Some(theme);
      }
      events := events + [theme];
    }

    /** toggleTheme: light after dark, dark otherwise; stored, and the new theme is returned. */
    method ToggleTheme() returns (next: string)
      modifies this
      ensures next == Toggled(old(GetTheme()))
      ensures GetTheme() == next && stored == Some(next)
      ensures events == old(events) + [next]
    {
      var current := GetTheme();
      next := if current == "dark" then "light" else "dark";
      SetTheme(next, true);
    }

    /**
     * initTheme: the saved theme, then the system's dark preference, then the
     * default, applied without storing anything. respectSystem is off only
     * when the option is false; canMatch says window.matchMedia exists.
     */
    method InitTheme(respectSystem: Option<bool>, default: string, canMatch: bool, prefersDark: bool)
      modifies this
      ensures GetTheme() == InitialTheme(old(stored), respectSystem != Some(false), canMatch, prefersDark, default)
      ensures stored == old(stored)
      ensures events == old(events) + [InitialTheme(old(stored), respectSystem != Some(false), canMatch, prefersDark, default)]
    {
      var respect := respectSystem != Some(false);
      var fallback := if default != "" then default else "light";
      var saved := stored;
      if saved.Some? && saved.value != "" {
        SetTheme(saved.value, false);
        return;
      }
      if respect && canMatch && prefersDark {
        SetTheme("dark", false);
        return;
      }
      SetTheme(fallback, false);
    }
  }

  /** A theme set with storage is what the next page load starts with, whatever the system prefers. */
  method ReloadKeepsTheme(theme: string, respectSystem: Option<bool>, prefersDark: bool) returns (after: string)
    requires theme != ""
    ensures after == theme
  {
    var page := new Document(None, None);
    page.SetTheme(theme, true);
    var next := new Document(None, page.stored);
    next.InitTheme(respectSystem, "", true, prefersDark);
    after := next.GetTheme();
  }
}
