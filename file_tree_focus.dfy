/**
 * The plugin object and its settings tab: the state `MyPlugin` keeps in
 * its fields (settings, the enabled flag, the style element's text) and
 * the callbacks that change it.
 */
module FileTreeFocus {
  import opened Wrappers
  import opened Text
  import opened StyleRules
  import opened PluginSettings

  /** The notice the toggle command shows (main.ts:35). */
  function NoticeText(enabled: bool): (r: string)
    ensures |r| >= |"Enabled file tree focus"| && (r[..7] == "Enabled" <==> enabled)
    ensures r[|r| - |" file tree focus"|..] == " file tree focus"
  {
    var state := if enabled then "Enabled" else "Disabled";
    var r := state + " file tree focus";
    assert r[..7] == state[..7];
    assert !enabled ==> r[0] == 'D';
    assert r[|r| - |" file tree focus"|..] == " file tree focus";
    r
  }

  /** `MyPlugin` (main.ts:15-77). */
  class Plugin {
    var settings: Settings
    var isEnabled: bool
    /** The text content of the injected style element; `None` while there is no element. */
    var styleText: Option<string>

    /** The style element, when there is one, shows the sheet compiled from the current state. */
    ghost predicate StylesCurrent()
      reads this
    {
      styleText.Some? ==> styleText.value == CompileCss(isEnabled, settings.hideByDefault, settings.pathExceptions)
    }

    /**
     * A fresh plugin object: enabled (main.ts:18) and without a style
     * element. The host leaves `settings` unset until `onload`; here it
     * starts at the defaults.
     */
    constructor ()
      ensures isEnabled && styleText == None && settings == DefaultSettings
      ensures StylesCurrent()
    {
      isEnabled := true;
      styleText := None;
      settings := DefaultSettings;
    }

    /** `updateStyles` (main.ts:49-68): rewrites the element's text, and does nothing without an element. */
    method UpdateStyles()
      modifies this`styleText
      ensures old(styleText).None? ==> styleText == None
      ensures old(styleText).Some? ==> styleText == Some(CompileCss(isEnabled, settings.hideByDefault, settings.pathExceptions))
      ensures StylesCurrent()
    {
      if styleText.None? {
        return;
      }
      styleText := Some(CompileCss(isEnabled, settings.hideByDefault, settings.pathExceptions));
    }

    /** `loadSettings` (main.ts:70-72), with what `loadData` returned passed in. */
    method LoadSettings(data: Option<StoredData>)
      modifies this`settings
      ensures settings == LoadedSettings(data)
      ensures old(styleText).None? ==> StylesCurrent()
    {
      settings := LoadedSettings(data);
    }

    /** `saveSettings` (main.ts:74-76): returns the blob handed to `saveData`. */
    method SaveSettings() returns (blob: StoredData)
      ensures blob == StoredData(Some(settings.hideByDefault), Some(settings.pathExceptions))
      ensures LoadedSettings(Some(blob)) == settings
    {
      blob := SavedData(settings);
      LoadSavedRoundTrip(settings);
    }

    /** `onload` (main.ts:20-27): load the settings, create the style element and fill it. */
    method OnLoad(data: Option<StoredData>)
      modifies this
      ensures settings == LoadedSettings(data) && isEnabled == old(isEnabled)
      ensures styleText == Some(CompileCss(isEnabled, settings.hideByDefault, settings.pathExceptions))
    {
      LoadSettings(data);
      styleText := Some("");
      UpdateStyles();
    }

    /**
     * The "Toggle file tree focus" command (main.ts:32-36): flips the flag,
     * recompiles and returns the notice text. The settings are untouched.
     */
    method ToggleFocus() returns (notice: string)
      modifies this`isEnabled, this`styleText
      ensures isEnabled == !old(isEnabled)
      ensures old(styleText).None? ==> styleText == None
      ensures old(styleText).Some? ==> styleText == Some(CompileCss(isEnabled, settings.hideByDefault, settings.pathExceptions))
      ensures !isEnabled && styleText.Some? ==> styleText == Some("")
      ensures StylesCurrent()
      ensures notice == NoticeText(isEnabled)
    {
      isEnabled := !isEnabled;
      UpdateStyles();
      notice := NoticeText(isEnabled);
    }
  }

  /** Running the toggle command twice restores the flag and the style text and leaves the settings alone. */
  method ToggleTwice(p: Plugin)
    requires p.StylesCurrent()
    modifies p
    ensures p.isEnabled == old(p.isEnabled) && p.styleText == old(p.styleText) && p.settings == old(p.settings)
  {
    var first := p.ToggleFocus();
    var second := p.ToggleFocus();
  }

  /** `SampleSettingTab` (main.ts:95-133): the two editing callbacks of the settings panel. */
  class SettingTab {
    const plugin: Plugin

    constructor (plugin: Plugin)
      ensures this.plugin == plugin
    {
      this.plugin := plugin;
    }

    /**
     * The text the path-exceptions text area starts with (main.ts:123): the
     * list joined with line breaks, which parses back to the list whenever
     * its entries are path entries.
     */
    function PathExceptionsText(): (r: string)
      reads this, plugin
      ensures AllPathEntries(plugin.settings.pathExceptions) ==> ParsePathExceptions(r) == plugin.settings.pathExceptions
    {
      var xs := plugin.settings.pathExceptions;
      assert AllPathEntries(xs) ==> ParsePathExceptions(Join(xs, "\n")) == xs by {
        if AllPathEntries(xs) {
          ParseJoinRoundTrip(xs);
        }
      }
      Join(xs, "\n")
    }

    /** The hide-by-default toggle's `onChange` (main.ts:112-116); returns the blob saved. */
    method OnHideByDefaultChange(value: bool) returns (saved: StoredData)
      modifies plugin`settings, plugin`styleText
      ensures plugin.settings == old(plugin.settings).(hideByDefault := value)
      ensures saved == StoredData(Some(plugin.settings.hideByDefault), Some(plugin.settings.pathExceptions))
      ensures LoadedSettings(Some(saved)) == plugin.settings
      ensures old(plugin.styleText).None? ==> plugin.styleText == None
      ensures old(plugin.styleText).Some? ==>
        plugin.styleText == Some(CompileCss(plugin.isEnabled, plugin.settings.hideByDefault, plugin.settings.pathExceptions))
      ensures plugin.StylesCurrent()
    {
      plugin.settings := plugin.settings.(hideByDefault := value);
      saved := plugin.SaveSettings();
      plugin.UpdateStyles();
    }

    /** The path-exceptions text area's `onChange` (main.ts:124-131); returns the blob saved. */
    method OnPathExceptionsChange(value: string) returns (saved: StoredData)
      modifies plugin`settings, plugin`styleText
      ensures plugin.settings == old(plugin.settings).(pathExceptions := ParsePathExceptions(value))
      ensures AllPathEntries(plugin.settings.pathExceptions)
      ensures saved == StoredData(Some(plugin.settings.hideByDefault), Some(plugin.settings.pathExceptions))
      ensures LoadedSettings(Some(saved)) == plugin.settings
      ensures old(plugin.styleText).None? ==> plugin.styleText == None
      ensures old(plugin.styleText).Some? ==>
        plugin.styleText == Some(CompileCss(plugin.isEnabled, plugin.settings.hideByDefault, plugin.settings.pathExceptions))
      ensures plugin.StylesCurrent()
    {
      plugin.settings := plugin.settings.(pathExceptions := ParsePathExceptions(value));
      saved := plugin.SaveSettings();
      plugin.UpdateStyles();
    }
  }
}
