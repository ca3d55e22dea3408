/** The theme and palette editor of a profile: a preset theme picked from a fixed table, or a
    custom palette of five colours, saved to the profile's `theme_preset` and `custom_colors`. */
module ColorCustomization {
  import opened Common
  import opened Profiles

  /** The five colours of a palette, as CSS colour strings. */
  datatype Palette = Palette(primary: string, secondary: string, accent: string, neutral: string, base: string)

  datatype ColorKey = Primary | Secondary | Accent | Neutral | Base

  function Color(p: Palette, k: ColorKey): string {
    match k
    case Primary => p.primary
    case Secondary => p.secondary
    case Accent => p.accent
    case Neutral => p.neutral
    case Base => p.base
  }

  /** A preset: its name, the caption shown on its button, and its colours. */
  datatype Theme = Theme(name: string, caption: string, colors: Palette)

  /** The preset themes, in display order; the last entry, `custom`, carries the light colours. */
  const DaisyThemes: seq<Theme> := [
    Theme("sunset", "🌅 Sunset (Isaraya)", Palette("#ff5f10", "#DB924B", "#FFB347", "#5C4033", "#FFF5E6")),
    Theme("light", "Clair", Palette("#570df8", "#f000b8", "#37cdbe", "#3d4451", "#ffffff")),
    Theme("dark", "Sombre", Palette("#661AE6", "#D926AA", "#1FB2A5", "#191D24", "#1d232a")),
    Theme("cupcake", "Cupcake", Palette("#65c3c8", "#ef9fbc", "#eeaf3a", "#291334", "#faf7f5")),
    Theme("bumblebee", "Bumblebee", Palette("#e0a82e", "#f9d72f", "#181830", "#181830", "#ffffff")),
    Theme("emerald", "Emerald", Palette("#66cc8a", "#377cfb", "#ea5234", "#333c4d", "#ffffff")),
    Theme("corporate", "Corporate", Palette("#4b6bfb", "#7b92b2", "#67cba0", "#181a2a", "#ffffff")),
    Theme("synthwave", "Synthwave", Palette("#e779c1", "#58c7f3", "#f9c513", "#221551", "#1a103d")),
    Theme("retro", "Retro", Palette("#ef9995", "#a4cbb4", "#ebdc99", "#2e282a", "#e4d8b4")),
    Theme("cyberpunk", "Cyberpunk", Palette("#ff7598", "#75d1f0", "#fff68f", "#423105", "#ffee00")),
    Theme("valentine", "Valentine", Palette("#e96d7b", "#a991f7", "#88dbdd", "#af4670", "#f0d9dd")),
    Theme("halloween", "Halloween", Palette("#f28c18", "#6d3a9c", "#51a800", "#1b1d1d", "#212121")),
    Theme("garden", "Garden", Palette("#5c7f67", "#ecf4e7", "#5c7f67", "#5c7f67", "#e9e7e7")),
    Theme("forest", "Forest", Palette("#1eb854", "#1db88e", "#1db8ab", "#19362d", "#171212")),
    Theme("aqua", "Aqua", Palette("#09ecf3", "#966fb3", "#ffe999", "#3b8ac4", "#345da7")),
    Theme("lofi", "Lo-Fi", Palette("#0d0d0d", "#1a1a1a", "#1a1a1a", "#0d0d0d", "#ffffff")),
    Theme("pastel", "Pastel", Palette("#d1c1d7", "#f6cbd1", "#b4e9d6", "#70acc7", "#ffffff")),
    Theme("fantasy", "Fantasy", Palette("#6e0b75", "#007ebd", "#f80000", "#19182d", "#ffffff")),
    Theme("wireframe", "Wireframe", Palette("#b8b8b8", "#b8b8b8", "#b8b8b8", "#b8b8b8", "#ffffff")),
    Theme("black", "Black", Palette("#373737", "#373737", "#373737", "#000000", "#000000")),
    Theme("luxury", "Luxury", Palette("#ffffff", "#152747", "#513448", "#331800", "#09090b")),
    Theme("dracula", "Dracula", Palette("#ff79c6", "#bd93f9", "#ffb86c", "#414558", "#282a36")),
    Theme("cmyk", "CMYK", Palette("#45AEEE", "#E8488A", "#FFF232", "#1a1a1a", "#ffffff")),
    Theme("autumn", "Autumn", Palette("#8c0327", "#d85251", "#ebdc99", "#322926", "#f3f0ef")),
    Theme("business", "Business", Palette("#1c4e80", "#7c909a", "#ea6947", "#23282e", "#ffffff")),
    Theme("acid", "Acid", Palette("#ff00f4", "#ff7400", "#00e0ff", "#1e1c28", "#fafafa")),
    Theme("lemonade", "Lemonade", Palette("#519903", "#e9e92e", "#f9a900", "#191a3f", "#ffffff")),
    Theme("night", "Night", Palette("#38bdf8", "#818CF8", "#F471B5", "#1E293B", "#0f172a")),
    Theme("coffee", "Coffee", Palette("#DB924B", "#263E3F", "#10576D", "#120C05", "#20161F")),
    Theme("winter", "Winter", Palette("#047AFF", "#463AA2", "#C148AC", "#FFFFFF", "#ffffff")),
    Theme("custom", "Personnalisé", Palette("#570df8", "#f000b8", "#37cdbe", "#3d4451", "#ffffff"))
  ]

  /** The colours used when a profile has none stored: those of the light theme. */
  const DefaultColors := Palette("#570df8", "#f000b8", "#37cdbe", "#3d4451", "#ffffff")

  const CustomTheme := "custom"
  const LightTheme := "light"

  /** `DAISY_THEMES.find(t => t.name === name)`. */
  function FindTheme(name: string): Option<Theme> {
    Find(DaisyThemes, (t: Theme) => t.name == name)
  }

  /** A theme found is an entry of the table under that name; none is found exactly when no entry
      has the name. */
  lemma FindThemeMeaning(name: string)
    ensures FindTheme(name).Some? ==> FindTheme(name).value in DaisyThemes && FindTheme(name).value.name == name
    ensures FindTheme(name).None? <==> forall i :: 0 <= i < |DaisyThemes| ==> DaisyThemes[i].name != name
  {
    FindSpec(DaisyThemes, (t: Theme) => t.name == name);
  }

  /** The preset names of `DaisyThemes`, in the same order. */
  const ThemeNames: seq<string> := [
    "sunset", "light", "dark", "cupcake", "bumblebee", "emerald", "corporate", "synthwave", "retro",
    "cyberpunk", "valentine", "halloween", "garden", "forest", "aqua", "lofi", "pastel", "fantasy",
    "wireframe", "black", "luxury", "dracula", "cmyk", "autumn", "business", "acid", "lemonade",
    "night", "coffee", "winter", "custom"]

  lemma ThemeNamesListed()
    ensures |DaisyThemes| == |ThemeNames|
    ensures forall i :: 0 <= i < |ThemeNames| ==> DaisyThemes[i].name == ThemeNames[i]
  {
  }

  lemma ThemeNamesUnique()
    ensures forall i, j :: 0 <= i < j < |ThemeNames| ==> ThemeNames[i] != ThemeNames[j]
  {
    ThemeNamesUniqueBelow();
    ThemeNamesUniqueMiddle();
    ThemeNamesUniqueAbove();
  }

  lemma ThemeNamesUniqueBelow()
    ensures forall i, j :: 0 <= i < j < 16 ==> ThemeNames[i] != ThemeNames[j]
  {
  }

  lemma ThemeNamesUniqueMiddle()
    ensures forall i, j :: 0 <= i < j < 24 && 16 <= j ==> ThemeNames[i] != ThemeNames[j]
  {
  }

  lemma ThemeNamesUniqueAbove()
    ensures forall i, j :: 0 <= i < j < |ThemeNames| && 24 <= j ==> ThemeNames[i] != ThemeNames[j]
  {
  }

  /** No two presets share a name. */
  lemma ThemeNamesDistinct()
    ensures forall i, j :: 0 <= i < j < |DaisyThemes| ==> DaisyThemes[i].name != DaisyThemes[j].name
  {
    ThemeNamesListed();
    ThemeNamesUnique();
  }

  /** Looking a preset up by its name finds that preset. */
  lemma FindThemeByName(k: nat)
    requires k < |DaisyThemes|
    ensures FindTheme(DaisyThemes[k].name) == Some(DaisyThemes[k])
  {
    ThemeNamesDistinct();
    FindFirst(DaisyThemes, (t: Theme) => t.name == DaisyThemes[k].name, k);
  }

  /** The entries at positions 1 and 30 are `light` and `custom`, both with the default colours. */
  lemma LightAndCustomEntries()
    ensures DaisyThemes[1] == Theme(LightTheme, "Clair", DefaultColors)
    ensures DaisyThemes[30].name == CustomTheme && DaisyThemes[30].colors == DefaultColors
  {
  }

  /** The light preset holds the default colours, and the custom entry holds the same. */
  lemma LightIsDefault()
    ensures FindTheme(LightTheme) == Some(Theme(LightTheme, "Clair", DefaultColors))
    ensures FindTheme(CustomTheme).Some? && FindTheme(CustomTheme).value.colors == DefaultColors
  {
    LightAndCustomEntries();
    FindThemeByName(1);
    FindThemeByName(30);
  }

  /** Selecting `light` always yields the default colours, whatever the current palette. */
  lemma SelectLightGivesDefault(current: Palette)
    ensures ColorsAfterSelect(LightTheme, current) == DefaultColors
  {
    LightIsDefault();
  }

  /** The palette read from a stored `custom_colors`, each missing colour taking its default. */
  function PaletteFrom(stored: Option<StoredColors>): (p: Palette)
    ensures stored.None? ==> p == DefaultColors
    ensures stored.Some? ==> p == Palette(
      OrDefault(stored.value.primary, DefaultColors.primary),
      OrDefault(stored.value.secondary, DefaultColors.secondary),
      OrDefault(stored.value.accent, DefaultColors.accent),
      OrDefault(stored.value.neutral, DefaultColors.neutral),
      OrDefault(stored.value.base, DefaultColors.base))
  {
    match stored
    case None => DefaultColors
    case Some(c) => Palette(OrDefault(c.primary, DefaultColors.primary),
      OrDefault(c.secondary, DefaultColors.secondary), OrDefault(c.accent, DefaultColors.accent),
      OrDefault(c.neutral, DefaultColors.neutral), OrDefault(c.base, DefaultColors.base))
  }

  /** A palette as stored in `custom_colors`: every key present. */
  function Stored(p: Palette): StoredColors {
    StoredColors(Some(p.primary), Some(p.secondary), Some(p.accent), Some(p.neutral), Some(p.base))
  }

  /** A stored palette reads back as itself when no colour is "", an empty colour reading back as
      its default. */
  lemma StoredReadsBack(p: Palette)
    ensures (forall k :: Color(p, k) != "") ==> PaletteFrom(Some(Stored(p))) == p
    ensures forall k :: (Color(PaletteFrom(Some(Stored(p))), k)
                         == if Color(p, k) == "" then Color(DefaultColors, k) else Color(p, k))
  {
    forall k
      ensures Color(PaletteFrom(Some(Stored(p))), k)
        == if Color(p, k) == "" then Color(DefaultColors, k) else Color(p, k)
    {
    }
    if forall k :: Color(p, k) != "" {
      assert Color(p, Primary) != "" && Color(p, Secondary) != "" && Color(p, Accent) != "";
      assert Color(p, Neutral) != "" && Color(p, Base) != "";
    }
  }

  /** `{ ...p, [k]: v }`: one colour replaced. */
  function WithColor(p: Palette, k: ColorKey, v: string): (q: Palette)
    ensures Color(q, k) == v
    ensures forall other :: other != k ==> Color(q, other) == Color(p, other)
  {
    match k
    case Primary => p.(primary := v)
    case Secondary => p.(secondary := v)
    case Accent => p.(accent := v)
    case Neutral => p.(neutral := v)
    case Base => p.(base := v)
  }

  /** The palette after selecting `name`: a preset's colours, or the current ones for `custom` or
      a name not in the table. */
  function ColorsAfterSelect(name: string, current: Palette): Palette {
    if name != CustomTheme then
      match FindTheme(name)
      case Some(t) => t.colors
      case None => current
    else current
  }

  /** Selecting a preset other than `custom` gives the colours of the entry with that name; `custom`
      or a name no entry has keeps the current colours. */
  lemma ColorsAfterSelectMeaning(name: string, current: Palette)
    ensures name == CustomTheme ==> ColorsAfterSelect(name, current) == current
    ensures (forall i :: 0 <= i < |DaisyThemes| ==> DaisyThemes[i].name != name)
      ==> ColorsAfterSelect(name, current) == current
    ensures forall k :: (0 <= k < |DaisyThemes| && DaisyThemes[k].name == name && name != CustomTheme
      ==> ColorsAfterSelect(name, current) == DaisyThemes[k].colors)
  {
    FindThemeMeaning(name);
    forall k | 0 <= k < |DaisyThemes| && DaisyThemes[k].name == name && name != CustomTheme
      ensures ColorsAfterSelect(name, current) == DaisyThemes[k].colors
    {
      FindThemeByName(k);
    }
  }

  /** The update the editor saves: the theme and the palette, and no other column. */
  function SavedUpdate(selectedTheme: string, colors: Palette): (u: ProfileUpdate)
    ensures u.themePreset == Some(selectedTheme) && u.customColors == Some(Stored(colors))
    ensures u.(themePreset := None, customColors := None) == NoChange
  {
    NoChange.(themePreset := Some(selectedTheme), customColors := Some(Stored(colors)))
  }

  /** Saving a theme carries no slug, so it never meets the slug check: it succeeds exactly when the
      profile exists, and the row then holds the theme and palette with every other column kept.
      The written and the corrected update guards agree on it. */
  lemma SaveThemeOutcome(rows: Rows, id: Id, selectedTheme: string, colors: Palette, lookupFailed: bool)
    ensures var r := CheckedUpdateOutcome(rows, id, SavedUpdate(selectedTheme, colors), lookupFailed);
      r == UpdateOutcome(rows, id, SavedUpdate(selectedTheme, colors), lookupFailed)
      && (r.Ok? <==> id in rows)
      && (r.Ok? ==> r.value == rows[id].(themePreset := Some(selectedTheme),
                                         customColors := Some(Stored(colors))))
  {
  }

  /** The editor's state. */
  class ThemeEditor {
    var selectedTheme: string
    var customColors: Palette
    var isCustom: bool

    /** The custom mode flag follows the selected theme. */
    predicate Valid()
      reads this
    {
      isCustom == (selectedTheme == CustomTheme)
    }

    /** The initial state for `profile`: its preset or `light`, its colours or the defaults. */
    constructor (profile: Profile)
      ensures selectedTheme == OrDefault(profile.themePreset, LightTheme)
      ensures customColors == PaletteFrom(profile.customColors)
      ensures Valid()
    {
      selectedTheme := OrDefault(profile.themePreset, LightTheme);
      customColors := PaletteFrom(profile.customColors);
      isCustom := OrDefault(profile.themePreset, LightTheme) == CustomTheme;
    }

    /** The effect that re-reads the profile: a non-empty preset replaces the theme, stored colours
        replace the palette; anything absent leaves the editor as it is. */
    method SyncFromProfile(profile: Profile)
      requires Valid()
      modifies this
      ensures Valid()
      ensures selectedTheme == OrDefault(profile.themePreset, old(selectedTheme))
      ensures customColors == if profile.customColors.Some? then PaletteFrom(profile.customColors)
                              else old(customColors)
    {
      if profile.themePreset.Some? && profile.themePreset.value != "" {
        selectedTheme := profile.themePreset.value;
        isCustom := profile.themePreset.value == CustomTheme;
      }
      if profile.customColors.Some? {
        customColors := PaletteFrom(profile.customColors);
      }
    }

    /** `handleThemeSelect`. */
    method HandleThemeSelect(themeName: string)
      modifies this
      ensures selectedTheme == themeName && isCustom == (themeName == CustomTheme) && Valid()
      ensures customColors == ColorsAfterSelect(themeName, old(customColors))
    {
      var colors := customColors;
      if themeName != CustomTheme {
        var theme := FindTheme(themeName);
        if theme.Some? {
          colors := theme.value.colors;
        }
      }
      selectedTheme, isCustom, customColors := themeName, themeName == CustomTheme, colors;
    }

    /** `handleColorChange`: one colour replaced, the theme untouched. */
    method HandleColorChange(colorKey: ColorKey, value: string)
      modifies this`customColors
      ensures customColors == WithColor(old(customColors), colorKey, value)
    {
      customColors := WithColor(customColors, colorKey, value);
    }

    /** `handleReset`: back to the light preset, the same steps as selecting `light`. */
    method HandleReset()
      modifies this
      ensures selectedTheme == LightTheme && !isCustom && Valid()
      ensures customColors == DefaultColors
    {
      var previous := customColors;
      HandleThemeSelect(LightTheme);
      SelectLightGivesDefault(previous);
    }

    /** The "Thèmes prédéfinis" button: leaves custom mode, going back to `light` from `custom`. */
    method SelectPresetMode()
      requires Valid()
      modifies this
      ensures !isCustom && Valid()
      ensures old(selectedTheme) == CustomTheme ==>
        selectedTheme == LightTheme && customColors == DefaultColors
      ensures old(selectedTheme) != CustomTheme ==>
        selectedTheme == old(selectedTheme) && customColors == old(customColors)
    {
      isCustom := false;
      if selectedTheme == CustomTheme {
        HandleThemeSelect(LightTheme);
        LightIsDefault();
      }
    }

    /** The "Couleurs personnalisées" button: enters custom mode, keeping the palette. */
    method SelectCustomMode()
      modifies this
      ensures isCustom && selectedTheme == CustomTheme && Valid()
      ensures customColors == old(customColors)
    {
      isCustom := true;
      selectedTheme := CustomTheme;
    }

    /** The update `handleSubmit` sends. */
    function Payload(): (u: ProfileUpdate)
      reads this
      ensures u.slug.None? && u.themePreset == Some(selectedTheme)
      ensures u.customColors == Some(Stored(customColors))
    {
      SavedUpdate(selectedTheme, customColors)
    }
  }
}
