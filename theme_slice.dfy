/**
 * The colour theme: the stored mode, and the record of the modes handed to
 * the page (the `applyTheme` side effect) in the order they were applied.
 */
module ThemeSlice {

  /** The mode a toggle switches to: light goes dark, anything else light. */
  function Toggled(mode: string): (r: string)
    ensures r == "dark" <==> mode == "light"
    ensures r == "light" <==> mode != "light"
  {
    if mode == "light" then "dark" else "light"
  }

  /** Toggling twice gives back light and dark; any other mode goes to
      light and then to dark. */
  lemma ToggleTwice(mode: string)
    ensures mode == "light" || mode == "dark" ==> Toggled(Toggled(mode)) == mode
    ensures mode != "light" && mode != "dark" ==> Toggled(mode) == "light" && Toggled(Toggled(mode)) == "dark"
  {
  }

  class Theme {
    var mode: string
    /** The modes applied to the page so far. */
    var applied: seq<string>

    /** The starting mode is whatever the browser reports. */
    constructor(initialMode: string)
      ensures mode == initialMode && applied == []
    {
      mode := initialMode;
      applied := [];
    }

    /** Stores the given mode as it is, unchecked, and applies it. */
    method SetTheme(m: string)
      modifies this
      ensures mode == m
      ensures applied == old(applied) + [m]
    {
      mode := m;
      applied := applied + [m];
    }

    /** Switches light and dark and applies the new mode. */
    method ToggleTheme()
      modifies this
      ensures mode == Toggled(old(mode))
      ensures applied == old(applied) + [mode]
    {
      var newMode := Toggled(mode);
      mode := newMode;
      applied := applied + [newMode];
    }
  }
}
