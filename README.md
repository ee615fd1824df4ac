# File Tree Focus, modelled in Dafny

File Tree Focus is a plugin for a note-taking application. It hides or shows
items in the application's file-tree sidebar. It does this by writing CSS
into one style element it owns. The CSS comes from three inputs:

- a runtime `isEnabled` flag, flipped by one command;
- the setting `hideByDefault`;
- the setting `pathExceptions`, a list of path prefixes whose items get the
  opposite display.

This project models the plugin's one source file, `main.ts`.

- `wrappers.dfy` (module `Wrappers`): `Option`, used for absent fields and
  for decoders that can fail.
- `text.dfy` (module `Text`): the JavaScript string operations the plugin
  uses, on `seq<char>`. These are `Array.prototype.join`,
  `String.prototype.split` with a one-character separator, and
  `String.prototype.trim`. Each comes with its own properties: split/join
  round-trips, and trimming is unique and idempotent.
- `style_rules.dfy` (module `StyleRules`): `CompileCss`, the stylesheet
  text `updateStyles` builds. It is written exactly as the code builds it.
  - In hide-by-default mode, the whitespace of the template literal is kept
    as fixed constants: a leading line break, five-tab indentation, and a
    closing line break with four tabs.
  - Each exception rule is
    `.tree-item:has(> .tree-item-self[data-path^="` + path +
    `"]) { display: X }`, with the path spliced in verbatim.
  - A decoder, `ExceptionPaths`, reads the path list back out of a compiled
    sheet. It serves as the compiler's partner in a round-trip lemma.
- `plugin_settings.dfy` (module `PluginSettings`): the settings record and
  `DEFAULT_SETTINGS`. It also holds the `Object.assign` merge done by
  `loadSettings`, the blob `saveSettings` writes, and the text-area parse
  (split on line breaks, trim, drop empty pieces).
- `file_tree_focus.dfy` (module `FileTreeFocus`): the plugin object as a
  class.
  - `MyPlugin` becomes `Plugin`, with the fields `settings`, `isEnabled`
    and `styleText`. The style element is represented only by its optional
    text.
  - `SampleSettingTab` becomes `SettingTab`, with the two `onChange`
    callbacks of the settings panel.
  - `UpdateStyles`, `ToggleFocus`, `OnLoad` and both settings callbacks
    leave the style element, when one exists, holding the sheet compiled
    from the current state (`StylesCurrent`). `LoadSettings` promises this
    only when no element exists yet. That is the only case that occurs,
    because `loadSettings` is called only from `onload`, before the
    element is created (main.ts:21-27).

### What the rules do not do

- In show-by-default mode no base rule is emitted, only exception rules
  (main.ts:60-62).
- Every entry is spliced after `^=`, so each rule is a prefix match. No
  other attribute operator is recognised (main.ts:57, main.ts:61).
- The rules are not scoped to any one view of the application.
- Only the text-area parse drops empty entries (main.ts:128).
  `updateStyles` compiles whatever list the settings hold.
- Exceptions are edited as one text area, one path per line
  (main.ts:121-131). There is no per-entry add or remove.

## Model

| member | source | states |
|---|---|---|
| `Text.Trim` | main.ts:127 | the result has no leading or trailing whitespace; it is the slice of the input left after removing a whitespace-only prefix and suffix; it is empty exactly when the input is all whitespace |
| `Text.TrimUnique` | main.ts:127 | any trimmed slice of the input with only whitespace around it is `Trim`'s result, so `trim` is pinned down by its contract |
| `Text.TrimOfTrimmed` | main.ts:127 | trimming a string that is already trimmed leaves it unchanged |
| `Text.Split` | main.ts:126 | `split('\n')` gives at least one piece; no piece contains the separator; joining the pieces with the separator gives the input back |
| `Text.SplitJoin` | main.ts:123-126 | splitting a join of separator-free parts gives exactly those parts back |
| `Text.Join` | main.ts:56-62 | `join(sep)`: a join of a non-empty list starts with its first part |
| `Text.JoinContains` | main.ts:56-62 | every part appears verbatim inside a join of the parts |
| `StyleRules.ExceptionRule` | main.ts:57-61 | the rule built for a path carries that path verbatim, and decodes back to it for its own display keyword |
| `StyleRules.ExceptionRules` | main.ts:56-62 | `pathExceptions.map(...)` gives one rule per path, in list order; rule k carries path k verbatim, with the given display |
| `StyleRules.CompileCss` | main.ts:52-67 | when disabled, the sheet is the empty string whatever the settings are; when enabled in hide-by-default mode, the base rule `.tree-item { display: none }` follows the leading line break and indentation |
| `StyleRules.RulePathOfRule` | main.ts:57 | an exception rule gives back its path verbatim for its own display keyword, and is not a rule of the other display |
| `StyleRules.CompileRoundTrip` | main.ts:53-62 | for paths without line breaks, decoding the enabled sheet gives back the exception list in order, with every rule carrying the display opposite to the mode's policy |
| `StyleRules.ShowAllEmptyIff` | main.ts:60-62 | in show-by-default mode the enabled sheet is empty exactly when the exception list is empty (no base rule) |
| `StyleRules.ExceptionRuleOccurs` | main.ts:56-61 | every path's rule appears verbatim in the enabled sheet with the opposite display (`block` when hiding by default, `none` otherwise); in hide-by-default mode it appears after the base rule |
| `StyleRules.ShowModeLines` | main.ts:60-62 | for a non-empty list of paths without line breaks, in show-by-default mode the sheet's lines are exactly one `display: none` rule per path, in list order, and nothing else |
| `StyleRules.HideModeEmptyLines` | main.ts:53-59 | in hide-by-default mode with no exceptions, the sheet's lines are an empty line, the indented base rule, an indentation-only line and the closing indentation, so it holds exactly one rule |
| `StyleRules.HideModeLines` | main.ts:53-59 | for a non-empty list of paths without line breaks, in hide-by-default mode the sheet's lines are an empty line, the indented base rule, one `display: block` rule per path in list order (the first indented), then the closing indentation |
| `PluginSettings.LoadedSettings` | main.ts:71 | `Object.assign({}, DEFAULT_SETTINGS, data)`: each field comes from the stored blob when the blob holds it, and from the defaults otherwise |
| `PluginSettings.SavedData` | main.ts:75 | the blob handed to `saveData` holds both fields |
| `PluginSettings.LoadWithoutData` | main.ts:10-13 | a missing blob and an empty blob both load as `{hideByDefault: false, pathExceptions: []}` |
| `PluginSettings.LoadSavedRoundTrip` | main.ts:71-75 | loading the blob that was saved gives back the same settings |
| `PluginSettings.TrimAll` | main.ts:127 | `.map(p => p.trim())`: one entry per line; entry k is line k with a whitespace-only prefix and suffix removed and is itself trimmed, which with `Text.TrimUnique` makes it `lines[k].trim()`; it is empty exactly when its line is all whitespace |
| `PluginSettings.DropEmpty` | main.ts:128 | `filter(p => p.length > 0)`: no entry is empty; every non-empty input entry is kept exactly as many times as it occurs; the entries keep their original order |
| `PluginSettings.DropEmptyAppend` | main.ts:128 | filtering distributes over concatenation |
| `PluginSettings.ParsePathExceptions` | main.ts:125-128 | every parsed entry is non-empty, trimmed and on one line; each non-empty trimmed line appears exactly as many times as it occurs, in line order |
| `PluginSettings.ParseJoinRoundTrip` | main.ts:123-128 | for any list of non-empty, trimmed, one-line strings, parsing its line-break join gives the same list |
| `PluginSettings.ParseShowParse` | main.ts:123-128 | showing a parsed list in the text area and parsing it again changes nothing |
| `FileTreeFocus.Plugin.constructor` | main.ts:16-18 | a new plugin is enabled, has no style element yet, and holds the default settings |
| `FileTreeFocus.Plugin.UpdateStyles` | main.ts:49-68 | without a style element nothing changes; otherwise the element's text becomes the compiled sheet of the current flag and settings |
| `FileTreeFocus.Plugin.LoadSettings` | main.ts:70-72 | the settings become the merge of the given blob over the defaults |
| `FileTreeFocus.Plugin.SaveSettings` | main.ts:74-76 | the blob written holds both current settings fields verbatim, and loads back as the current settings |
| `FileTreeFocus.Plugin.OnLoad` | main.ts:20-27 | after load, the settings are the merged blob, a style element exists, and it shows the compiled sheet |
| `FileTreeFocus.Plugin.ToggleFocus` | main.ts:32-36 | the command flips `isEnabled`, leaves the settings alone, recompiles (an empty sheet once disabled) and returns the notice text for the new state |
| `FileTreeFocus.ToggleTwice` | main.ts:32-34 | starting from a state whose style element (if any) holds the sheet compiled from the current state, running the command twice restores `isEnabled` and the style text, and leaves the settings unchanged |
| `FileTreeFocus.NoticeText` | main.ts:35 | the notice starts with `Enabled` exactly when focus is now enabled, and ends with ` file tree focus` |
| `FileTreeFocus.SettingTab.constructor` | main.ts:98-101 | the tab holds the plugin it was given |
| `FileTreeFocus.SettingTab.PathExceptionsText` | main.ts:123 | the text area's initial text parses back to the exception list whenever its entries are non-empty, trimmed and on one line |
| `FileTreeFocus.SettingTab.OnHideByDefaultChange` | main.ts:112-116 | only `hideByDefault` changes; the saved blob holds both new settings fields verbatim and loads back as the new settings; an existing style element is kept and now holds the recompiled sheet |
| `FileTreeFocus.SettingTab.OnPathExceptionsChange` | main.ts:124-131 | only `pathExceptions` changes, to the parse of the text; every entry is then a path entry; the saved blob holds both new settings fields verbatim and loads back as the new settings; an existing style element is kept and now holds the recompiled sheet |

## Left out

- DOM work is left out: creating the style element, setting its id,
  appending it to the document head, and removing it in `onunload`
  (main.ts:24-26, main.ts:42-47). The element is only an optional text
  field. `onunload` is not modelled, because after it the element still
  exists (only detached), so the model's state would not change.
- Host toolkit calls are left out: `Notice`, `addCommand`, `addSettingTab`,
  and building the `Setting`, toggle and text-area widgets. The toggle
  command returns its notice text instead of showing it.
- `loadData` and `saveData` are asynchronous host calls. The model takes
  what `loadData` returns as a parameter and returns what would be handed
  to `saveData`. Only the merge semantics are modelled.
- Failing persistence is not modelled. If `loadData` rejects, `onload`
  stops before the style element is created. If `saveData` rejects, a
  settings callback stops before `updateStyles` (main.ts:21, main.ts:114-115,
  main.ts:129-130). In the model, persistence always succeeds.
- The stored blob has only the two known fields, each optional. Unknown
  keys, which `Object.assign` would copy into the settings, are not
  modelled. Neither are fields of the wrong type, which it does not check.
- `SampleModal` (main.ts:79-93) is not modelled. Nothing uses it.
- `Text.IsWhitespace` lists the ECMAScript WhiteSpace and LineTerminator
  code points that `trim` strips. Strings are sequences of Unicode
  characters, not UTF-16 code units, so surrogate pairs are not modelled.
- `StyleRules.CompileRoundTrip`, `StyleRules.ShowModeLines` and
  `StyleRules.HideModeLines` hold only for paths without line breaks. The
  text-area parse never produces such a path. A stored blob can hold one,
  though, because the merge at main.ts:71 checks nothing. For such a path
  the sheet has more lines than rules, and these lemmas say nothing about
  it.
- `FileTreeFocus.ToggleTwice` holds only when the style text is current
  (`StylesCurrent`). Each settings callback is modelled as one atomic
  step. In the source the callbacks are `async`: they change the settings,
  wait for `saveSettings` and only then call `updateStyles` (main.ts:113-115,
  main.ts:125-130). The toggle command can run during that wait, while the
  element still shows the old sheet. Two toggles then leave it showing the
  sheet of the new settings, not the text it started with. The model has
  no such interleaving.
