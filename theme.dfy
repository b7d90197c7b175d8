/**
 * The light/dark theme switch shared by the public pages, the admin panel and
 * the full-page chatbot: the start-up choice, the toggle, and the icon of the
 * toggle button. A theme is the string kept under the storage key 'theme'.
 */
module Theme {
  import opened Wrappers

  const Light: string := "light"
  const Dark: string := "dark"

  /** The glyph on the theme button: a sun offers to leave dark mode, a moon to enter it. */
  datatype Icon = Sun | Moon

  /** The value toggling leaves: dark after light, light after anything else. */
  function Toggled(theme: string): (r: string)
    ensures r == Light || r == Dark
    ensures r == Dark <==> theme == Light
  {
    if theme == Light then Dark else Light
  }

  /** The button icon for a theme. */
  function ButtonIcon(theme: string): (i: Icon)
    ensures i == Sun <==> theme == Dark
  {
    if theme == Dark then Sun else Moon
  }

  /**
   * The theme a page starts with: a saved non-empty preference wins, then the
   * system's dark preference, and otherwise the initial 'light'.
   */
  function InitialTheme(saved: Option<string>, prefersDark: bool): (t: string)
    ensures saved.Some? && saved.value != "" ==> t == saved.value
    ensures saved.None? || saved.value == "" ==> (t == Light || t == Dark) && (t == Dark <==> prefersDark)
  {
    if saved.Some? && saved.value != "" then saved.value
    else if prefersDark then Dark
    else Light
  }

  /**
   * The system colour-scheme listener: only when nothing is saved does the page
   * follow the system, to dark when it matches and to light otherwise.
   */
  function OnSystemChange(current: string, saved: Option<string>, matchesDark: bool): (t: string)
    ensures saved.Some? && saved.value != "" ==> t == current
    ensures saved.None? || saved.value == "" ==> (t == Dark <==> matchesDark) && (t == Light || t == Dark)
  {
    if saved.Some? && saved.value != "" then current
    else if matchesDark then Dark
    else Light
  }

  /** Toggling twice gives the theme back exactly when it was light or dark to begin with. */
  lemma ToggleTwice(t: string)
    ensures Toggled(Toggled(t)) == t <==> t == Light || t == Dark
  {
    if t != Light && t != Dark {
      assert Toggled(Toggled(t)) == Dark;
    }
  }

  /**
   * The icon changes on every toggle exactly when the theme was light or dark;
   * an unknown saved value shows a moon before and after its first toggle.
   */
  lemma ToggleFlipsIcon(t: string)
    ensures ButtonIcon(Toggled(t)) != ButtonIcon(t) <==> t == Light || t == Dark
  {
  }

  /** The theme state of a page that declares `currentTheme` (admin panel and full-page chatbot). */
  class PageTheme {
    var current: string
    /** The 'theme' entry of local storage. */
    var saved: Option<string>
    var icon: Icon

    /** Start-up: pick the theme from storage and the system preference, then draw the icon. */
    constructor (saved: Option<string>, prefersDark: bool)
      ensures current == InitialTheme(saved, prefersDark)
      ensures this.saved == saved && icon == ButtonIcon(current)
    {
      var t := InitialTheme(saved, prefersDark);
      current := t;
      this.saved := saved;
      icon := ButtonIcon(t);
    }

    /** The theme button: switch, save and redraw. */
    method Toggle()
      modifies this
      ensures current == Toggled(old(current))
      ensures saved == Some(current) && icon == ButtonIcon(current)
    {
      current := Toggled(current);
      saved := Some(current);
      icon := ButtonIcon(current);
    }
  }
}
