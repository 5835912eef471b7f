/**
 * The theme provider: the theme is resolved once from the `theme` storage
 * slot or the system preference, changed by the toggle or by a system
 * preference change, and every change is applied to the root element's
 * class set and written back to the slot.
 */
module ThemeContext {
  import opened Wrappers

  const LIGHT: string := "light"
  const DARK: string := "dark"

  /** The classes the apply effect always adds to the root element. */
  const TransitionClasses: set<string> := {"transition-colors", "duration-300"}

  /** A stored string is truthy when present and non-empty. */
  predicate Truthy(saved: Option<string>) {
    saved.Some? && saved.value != ""
  }

  /** The state initialiser: a saved value as it is, else the system preference, else light. */
  function InitialTheme(saved: Option<string>, systemDark: bool): (theme: string)
    ensures theme != ""
    ensures Truthy(saved) ==> theme == saved.value
    ensures !Truthy(saved) ==> (theme == DARK <==> systemDark) && theme in {LIGHT, DARK}
  {
    if Truthy(saved) then saved.value
    else if systemDark then DARK
    else LIGHT
  }

  /** The theme `toggleTheme` moves to: light becomes dark, everything else becomes light. */
  function Toggled(theme: string): (next: string)
    ensures next in {LIGHT, DARK}
    ensures next == DARK <==> theme == LIGHT
    ensures next != theme
  {
    if theme == LIGHT then DARK else LIGHT
  }

  /** Toggling twice is the identity exactly on light and dark. */
  lemma ToggleTwice(theme: string)
    ensures Toggled(Toggled(theme)) == theme <==> theme in {LIGHT, DARK}
  {
  }

  /** The root class set after the apply effect. */
  function AppliedClasses(classes: set<string>, theme: string): (r: set<string>)
    ensures theme in r && TransitionClasses <= r
  {
    (classes - {LIGHT, DARK}) + TransitionClasses + {theme}
  }

  /**
   * After applying, the root carries exactly one of light/dark, namely the
   * theme when it is one of them, and keeps every other class it had.
   */
  lemma AppliedHasOneMode(classes: set<string>, theme: string)
    ensures AppliedClasses(classes, theme) * {LIGHT, DARK} == {theme} * {LIGHT, DARK}
    ensures classes - {LIGHT, DARK} <= AppliedClasses(classes, theme)
    ensures AppliedClasses(classes, theme) <= classes + TransitionClasses + {theme}
  {
  }

  class ThemeProvider {
    var theme: string
    /** The `theme` storage slot. */
    var slot: Option<string>
    /** The root element's class list. */
    var rootClasses: set<string>
    /** The root element's `data-theme` attribute. */
    var dataTheme: string

    /** The theme has been applied: written to the slot, the attribute and the class set. */
    ghost predicate Valid()
      reads this
    {
      && theme != ""
      && slot == Some(theme)
      && dataTheme == theme
      && rootClasses == AppliedClasses(rootClasses, theme)
    }

    /** `isDark`. */
    function IsDark(): bool
      reads this
    {
      theme == DARK
    }

    /** Mounting the provider: resolve the theme, then the apply effect runs. */
    constructor (saved: Option<string>, systemDark: bool, classes: set<string>)
      ensures Valid()
      ensures theme == InitialTheme(saved, systemDark)
      ensures rootClasses == AppliedClasses(classes, theme)
    {
      theme := InitialTheme(saved, systemDark);
      slot := saved;
      rootClasses := classes;
      dataTheme := "";
      new;
      Apply();
    }

    /** The apply effect: swap the mode class, add the transition classes, write the slot and the attribute. */
    method Apply()
      modifies this
      ensures theme == old(theme)
      ensures rootClasses == AppliedClasses(old(rootClasses), theme)
      ensures slot == Some(theme) && dataTheme == theme
    {
      rootClasses := AppliedClasses(rootClasses, theme);
      slot := Some(theme);
      dataTheme := theme;
    }

    /** `toggleTheme`: write the new theme to the slot; the change then triggers the apply effect. */
    method ToggleTheme()
      modifies this
      ensures Valid()
      ensures theme == Toggled(old(theme))
      ensures IsDark() <==> old(theme) == LIGHT
      ensures rootClasses == AppliedClasses(old(rootClasses), theme)
    {
      var next := Toggled(theme);
      slot := Some(next);
      theme := next;
      Apply();
    }

    /**
     * The system preference changed: only while the slot is falsy does the
     * theme follow it, and a theme that actually changes is applied. Once the
     * theme has been applied the slot is never falsy, so the change has no
     * effect.
     */
    method SystemChange(matchesDark: bool)
      modifies this
      ensures old(Valid()) ==> unchanged(this)
      ensures Truthy(old(slot)) ==> unchanged(this)
      ensures !Truthy(old(slot)) ==> theme == (if matchesDark then DARK else LIGHT)
      ensures !Truthy(old(slot)) && theme != old(theme) ==> Valid()
      ensures !Truthy(old(slot)) && theme != old(theme) ==> rootClasses == AppliedClasses(old(rootClasses), theme)
      ensures theme == old(theme) ==> unchanged(this)
    {
      if !Truthy(slot) {
        var next := if matchesDark then DARK else LIGHT;
        if next != theme {
          theme := next;
          Apply();
        }
      }
    }
  }
}
