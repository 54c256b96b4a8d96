/**
 * The browser client's settings: five values read once from local storage
 * with their defaults, written back whenever a control changes, and the
 * light/dark theme switch.
 */
module ClientSettings {
  import opened Wire

  /** The raw strings under the five storage keys; None when a key is unset. */
  datatype Stored = Stored(
    theme: Option<string>,
    autoAnalyze: Option<string>,
    defaultLanguage: Option<string>,
    autoSave: Option<string>,
    showMetrics: Option<string>)

  /** The in-memory `Settings` object. */
  datatype Settings = Settings(
    theme: string,
    autoAnalyze: bool,
    defaultLanguage: string,
    autoSave: bool,
    showMetrics: bool)

  const SunIcon := "\U{2600}\U{FE0F}"
  const MoonIcon := "\U{1F319}"

  /** `stored || fallback` on a string that may be null. */
  function OrDefault(v: Option<string>, fallback: string): string {
    if v.Some? && v.value != "" then v.value else fallback
  }

  /** How the settings are initialised from storage. */
  function Load(st: Stored): (s: Settings)
    ensures st.theme.Some? && st.theme.value != "" ==> s.theme == st.theme.value
    ensures st.theme.None? || st.theme == Some("") ==> s.theme == "dark"
    ensures s.autoAnalyze <==> st.autoAnalyze == Some("true")
    ensures st.defaultLanguage.Some? && st.defaultLanguage.value != "" ==> s.defaultLanguage == st.defaultLanguage.value
    ensures st.defaultLanguage.None? || st.defaultLanguage == Some("") ==> s.defaultLanguage == "Python"
    ensures s.autoSave <==> st.autoSave != Some("false")
    ensures s.showMetrics <==> st.showMetrics != Some("false")
    ensures s.theme != "" && s.defaultLanguage != ""
  {
    Settings(
      theme := OrDefault(st.theme, "dark"),
      autoAnalyze := st.autoAnalyze == Some("true"),
      defaultLanguage := OrDefault(st.defaultLanguage, "Python"),
      autoSave := st.autoSave != Some("false"),
      showMetrics := st.showMetrics != Some("false"))
  }

  /** `localStorage.setItem` turns a boolean into "true" or "false". */
  function BoolText(b: bool): (t: string)
    ensures t == "true" || t == "false"
    ensures t == "true" <==> b
  {
    if b then "true" else "false"
  }

  /** Everything written back, as the handlers write each key. */
  function Store(s: Settings): (st: Stored)
    ensures st.theme == Some(s.theme) && st.defaultLanguage == Some(s.defaultLanguage)
    ensures st.autoAnalyze.Some? && st.autoSave.Some? && st.showMetrics.Some?
    ensures st.autoAnalyze == Some("true") <==> s.autoAnalyze
    ensures st.autoSave == Some("true") <==> s.autoSave
    ensures st.showMetrics == Some("true") <==> s.showMetrics
  {
    Stored(Some(s.theme), Some(BoolText(s.autoAnalyze)), Some(s.defaultLanguage),
           Some(BoolText(s.autoSave)), Some(BoolText(s.showMetrics)))
  }

  /** Writing the settings and reading them back gives them unchanged, as
      long as the two strings are not empty (an empty one reads back as its
      default). */
  lemma StoreThenLoad(s: Settings)
    ensures Load(Store(s)) == s <==> s.theme != "" && s.defaultLanguage != ""
  {
    if Load(Store(s)) == s {
      assert Load(Store(s)).theme != "";
    }
  }

  /** The theme the toggle button switches to. */
  function Toggled(theme: string): (r: string)
    ensures r == "dark" || r == "light"
    ensures r == "light" <==> theme == "dark"
  {
    if theme == "dark" then "light" else "dark"
  }

  /** Toggling twice gives the theme back exactly when it was one of the two
      known themes; any other stored value turns into dark, then light. */
  lemma ToggleTwice(theme: string)
    ensures Toggled(Toggled(theme)) == theme <==> theme == "dark" || theme == "light"
    ensures theme != "dark" ==> Toggled(theme) == "dark" && Toggled(Toggled(theme)) == "light"
  {
  }

  /** The settings, their stored copy and the parts of the page they drive. */
  class SettingsStore {
    var stored: Stored
    var current: Settings
    var themeAttribute: string
    var toggleIcon: string
    var languageSelection: string
    var metricsShown: bool

    /** What is in memory is what a reload would read back. */
    predicate Valid()
      reads this
    {
      Load(stored) == current
    }

    /** The `Settings` initialiser, reading storage once. */
    constructor (st: Stored)
      ensures stored == st && current == Load(st)
      ensures Valid()
    {
      stored := st;
      current := Load(st);
      themeAttribute := "";
      toggleIcon := "";
      languageSelection := "";
      metricsShown := true;
    }

    /** `applyTheme`: sets the page theme, the setting, the stored value and
        the button's icon. */
    method ApplyTheme(theme: string)
      modifies this
      ensures current == old(current).(theme := theme)
      ensures stored == old(stored).(theme := Some(theme))
      ensures themeAttribute == theme
      ensures toggleIcon == if theme == "dark" then SunIcon else MoonIcon
      ensures languageSelection == old(languageSelection) && metricsShown == old(metricsShown)
      ensures old(Valid()) && theme != "" ==> Valid()
    {
      themeAttribute := theme;
      current := current.(theme := theme);
      stored := stored.(theme := Some(theme));
      toggleIcon := if theme == "dark" then SunIcon else MoonIcon;
    }

    /** The theme button's click handler. */
    method ToggleTheme()
      modifies this
      ensures current == old(current).(theme := Toggled(old(current.theme)))
      ensures stored == old(stored).(theme := Some(current.theme))
      ensures themeAttribute == current.theme
      ensures toggleIcon == if current.theme == "dark" then SunIcon else MoonIcon
      ensures languageSelection == old(languageSelection) && metricsShown == old(metricsShown)
      ensures old(Valid()) ==> Valid()
    {
      var newTheme := if current.theme == "dark" then "light" else "dark";
      ApplyTheme(newTheme);
    }

    /** The auto-analyze checkbox's change handler. */
    method SetAutoAnalyze(checked: bool)
      modifies this
      ensures current == old(current).(autoAnalyze := checked)
      ensures stored == old(stored).(autoAnalyze := Some(BoolText(checked)))
      ensures themeAttribute == old(themeAttribute) && toggleIcon == old(toggleIcon)
      ensures languageSelection == old(languageSelection) && metricsShown == old(metricsShown)
      ensures old(Valid()) ==> Valid()
    {
      current := current.(autoAnalyze := checked);
      stored := stored.(autoAnalyze := Some(BoolText(checked)));
    }

    /** The auto-save checkbox's change handler. */
    method SetAutoSave(checked: bool)
      modifies this
      ensures current == old(current).(autoSave := checked)
      ensures stored == old(stored).(autoSave := Some(BoolText(checked)))
      ensures themeAttribute == old(themeAttribute) && toggleIcon == old(toggleIcon)
      ensures languageSelection == old(languageSelection) && metricsShown == old(metricsShown)
      ensures old(Valid()) ==> Valid()
    {
      current := current.(autoSave := checked);
      stored := stored.(autoSave := Some(BoolText(checked)));
    }

    /** The show-metrics checkbox's change handler, which also shows or hides
        the metrics section. */
    method SetShowMetrics(checked: bool)
      modifies this
      ensures current == old(current).(showMetrics := checked)
      ensures stored == old(stored).(showMetrics := Some(BoolText(checked)))
      ensures metricsShown == checked
      ensures themeAttribute == old(themeAttribute) && toggleIcon == old(toggleIcon)
      ensures languageSelection == old(languageSelection)
      ensures old(Valid()) ==> Valid()
    {
      current := current.(showMetrics := checked);
      stored := stored.(showMetrics := Some(BoolText(checked)));
      metricsShown := current.showMetrics;
    }

    /** The default-language select's change handler, which also switches the
        editor's language. */
    method SetDefaultLanguage(language: string)
      modifies this
      ensures current == old(current).(defaultLanguage := language)
      ensures stored == old(stored).(defaultLanguage := Some(language))
      ensures languageSelection == language
      ensures themeAttribute == old(themeAttribute) && toggleIcon == old(toggleIcon)
      ensures metricsShown == old(metricsShown)
      ensures old(Valid()) && language != "" ==> Valid()
    {
      current := current.(defaultLanguage := language);
      stored := stored.(defaultLanguage := Some(language));
      languageSelection := current.defaultLanguage;
    }
  }
}
