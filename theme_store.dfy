/**
 * The theme store of `src/store/themeStore.ts`: a light/dark mode, one of
 * five colour schemes, and the constant table of Tailwind classes per scheme.
 */
module ThemeStore {

  datatype ThemeMode = Light | Dark

  datatype ColorScheme = Blue | Purple | Green | Pink | Amber

  /** The ten class strings of one `colorSchemes` entry. */
  datatype Palette = Palette(
    primary: string,
    secondary: string,
    lighter: string,
    darker: string,
    hover: string,
    lighterHover: string,
    text: string,
    border: string,
    darkOpacity: string,
    darkOpacityHover: string)

  function SchemeName(c: ColorScheme): string {
    match c
    case Blue => "blue"
    case Purple => "purple"
    case Green => "green"
    case Pink => "pink"
    case Amber => "amber"
  }

  /** The `colorSchemes` table, keyed by scheme name. */
  const ColorSchemes: map<string, Palette> := map[
    "blue" := Palette(
      "from-blue-500 to-blue-600", "from-blue-400 to-blue-500", "from-blue-400 to-blue-500",
      "from-blue-600 to-blue-700", "bg-blue-600", "bg-blue-500", "text-blue-500", "border-blue-500",
      "bg-blue-500/10", "hover:bg-blue-500/20"),
    "purple" := Palette(
      "from-purple-500 to-purple-600", "from-purple-400 to-purple-500", "from-purple-400 to-purple-500",
      "from-purple-600 to-purple-700", "bg-purple-600", "bg-purple-500", "text-purple-500", "border-purple-500",
      "bg-purple-500/10", "hover:bg-purple-500/20"),
    "green" := Palette(
      "from-emerald-500 to-emerald-600", "from-emerald-400 to-emerald-500", "from-emerald-400 to-emerald-500",
      "from-emerald-600 to-emerald-700", "bg-emerald-600", "bg-emerald-500", "text-emerald-500", "border-emerald-500",
      "bg-emerald-500/10", "hover:bg-emerald-500/20"),
    "pink" := Palette(
      "from-pink-500 to-pink-600", "from-pink-400 to-pink-500", "from-pink-400 to-pink-500",
      "from-pink-600 to-pink-700", "bg-pink-600", "bg-pink-500", "text-pink-500", "border-pink-500",
      "bg-pink-500/10", "hover:bg-pink-500/20"),
    "amber" := Palette(
      "from-amber-500 to-amber-600", "from-amber-400 to-amber-500", "from-amber-400 to-amber-500",
      "from-amber-600 to-amber-700", "bg-amber-600", "bg-amber-500", "text-amber-500", "border-amber-500",
      "bg-amber-500/10", "hover:bg-amber-500/20")
  ]

  /** The table has exactly the five scheme names as keys, so a lookup by scheme is total. */
  lemma TableIsTotal()
    ensures ColorSchemes.Keys == set c: ColorScheme :: SchemeName(c)
    ensures forall c: ColorScheme :: SchemeName(c) in ColorSchemes
  {
    var names := set c: ColorScheme :: SchemeName(c);
    assert SchemeName(Blue) in names && SchemeName(Purple) in names && SchemeName(Green) in names;
    assert SchemeName(Pink) in names && SchemeName(Amber) in names;
  }

  /** The `mode` ternary of `toggleMode`. */
  function Toggled(m: ThemeMode): (r: ThemeMode)
    ensures r != m
  {
    if m == Light then Dark else Light
  }

  lemma ToggleTwice(m: ThemeMode)
    ensures Toggled(Toggled(m)) == m
  {
  }

  class Store {
    var mode: ThemeMode
    var colorScheme: ColorScheme

    constructor ()
      ensures mode == Light && colorScheme == Blue
    {
      mode, colorScheme := Light, Blue;
    }

    /** `toggleMode`: swap the mode, keep the scheme. */
    method ToggleMode()
      modifies this
      ensures mode == Toggled(old(mode)) && colorScheme == old(colorScheme)
    {
      mode := if mode == Light then Dark else Light;
    }

    /** `setColorScheme(scheme)`: set the scheme, keep the mode. */
    method SetColorScheme(scheme: ColorScheme)
      modifies this
      ensures colorScheme == scheme && mode == old(mode)
    {
      colorScheme := scheme;
    }
  }

  /** Toggling twice restores the mode and never touches the scheme. */
  method ToggleTwiceRestores(s: Store)
    modifies s
    ensures s.mode == old(s.mode) && s.colorScheme == old(s.colorScheme)
  {
    s.ToggleMode();
    s.ToggleMode();
  }
}
