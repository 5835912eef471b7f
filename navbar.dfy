/**
 * The navigation bar: which link is highlighted for the current path, the
 * scrolled flag, and the mobile menu's open flag.
 */
module Navbar {
  import ThemeContext

  /** The three links of the bar. */
  const Home: string := "/"
  const Tasks: string := "/tasks"
  const ApiDataPath: string := "/api-data"

  /** `isActive`: the path starts with the link target, and the home link needs the path to be exactly `/`. */
  predicate IsActive(to: string, pathname: string) {
    to <= pathname && (if to == Home then pathname == Home else true)
  }

  /** The home link is active only on `/`; any other link is active on every path it prefixes. */
  lemma ActiveMeaning(to: string, pathname: string)
    ensures to == Home ==> (IsActive(to, pathname) <==> pathname == Home)
    ensures to != Home ==> (IsActive(to, pathname) <==> to <= pathname)
  {
  }

  /** The test is a plain string prefix, not a path-segment match: `/tasks` is also active on `/tasksX`. */
  lemma ActiveIsNotSegmentAware()
    ensures IsActive(Tasks, "/tasks/new") && IsActive(Tasks, "/tasksX")
  {
  }

  /** Whatever the path, at most one of the three links is active. */
  lemma AtMostOneActive(pathname: string)
    ensures !(IsActive(Home, pathname) && IsActive(Tasks, pathname))
    ensures !(IsActive(Home, pathname) && IsActive(ApiDataPath, pathname))
    ensures !(IsActive(Tasks, pathname) && IsActive(ApiDataPath, pathname))
  {
    if Tasks <= pathname {
      assert pathname[1] == 't' != ApiDataPath[1];
    }
  }

  /** The bar's own state, next to the theme provider it toggles. */
  class NavbarState {
    const themes: ThemeContext.ThemeProvider
    var isOpen: bool
    var scrolled: bool

    constructor (themes: ThemeContext.ThemeProvider)
      ensures this.themes == themes && !isOpen && !scrolled
    {
      this.themes := themes;
      isOpen := false;
      scrolled := false;
    }

    /** The scroll listener: `scrolled` follows `scrollY > 10`, and is written only when that differs. */
    method HandleScroll(scrollY: real) returns (written: bool)
      modifies this
      ensures scrolled == (scrollY > 10.0)
      ensures written <==> old(scrolled) != scrolled
      ensures isOpen == old(isOpen)
    {
      var isScrolled := scrollY > 10.0;
      written := isScrolled != scrolled;
      if written {
        scrolled := isScrolled;
      }
    }

    /** The menu button flips the menu open or shut. */
    method ToggleMenu()
      modifies this
      ensures isOpen == !old(isOpen) && scrolled == old(scrolled)
    {
      isOpen := !isOpen;
    }

    /** A link in the mobile menu was followed: the menu shuts. */
    method CloseMenu()
      modifies this
      ensures !isOpen && scrolled == old(scrolled)
    {
      isOpen := false;
    }

    /** The theme button of the mobile menu: toggle the theme, then shut the menu. */
    method MobileThemeButton()
      modifies this, themes
      ensures !isOpen && scrolled == old(scrolled)
      ensures themes.Valid() && themes.theme == ThemeContext.Toggled(old(themes.theme))
      ensures themes.rootClasses == ThemeContext.AppliedClasses(old(themes.rootClasses), themes.theme)
    {
      themes.ToggleTheme();
      isOpen := false;
    }
  }
}
