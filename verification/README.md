# Background media keeper: a verified model

This browser extension keeps audio and video playing in background tabs. It has four parts:

- **The background script.** It holds the set of tab ids the user is tracking, plus a cache of the mask settings: a CSS selector and an on/off flag. Once a second it lists the open tabs, keeps the tracked ones that show an `http://` or `https://` page, orders them by tab `index`, and injects a resume routine into each.
- **The resume routine.** It runs in the page. For every paused `audio`/`video` element, it first hides the mask element when a mask is configured, then calls `play`.
- **The content script.** It answers `getStatus` queries with `{hasMedia, playing}`. It also reports that status every second; in Chrome the report stops when the extension context is invalidated or the page unloads.
- **The popup.** It lists the tabs and shows a tracking switch for tabs that have media. It also edits the mask settings and writes them to storage, skipping a write when the trimmed selector and the flag equal the values it last loaded or wrote.

The model states these rules over abstract values and proves them in Dafny:

- a tab is `{id, index, url}`;
- a media element is `{paused, muted, play outcome}`;
- a page has a mask lookup and the mask's hidden state;
- storage values are JavaScript values, with JavaScript truthiness.

The Chrome and Firefox background scripts have toggle handlers, `loadMaskSettings` functions, `onChanged` listeners and tick filters with the same behaviour. Firefox reads storage through a `storageGet` wrapper that turns a missing result into `{}`; Chrome reads it directly, with the same outcome. That shared logic is modelled once, by `Background.Coordinator` and its functions:

| Chrome lines | Firefox lines | what |
|---|---|---|
| chrome/background.js:67-80 | firefox/background.js:117-129 | toggle handler |
| chrome/background.js:85-98 | firefox/background.js:134-147 | `loadMaskSettings` |
| chrome/background.js:102-112 | firefox/background.js:151-161 | `onChanged` listener |

The two scripts differ in how a tick hands the settings to the routine and in how that routine handles a `play()` that throws at once, so there are two tick methods: `TickFirefox` and `TickChrome`. The two content scripts share `getMediaInfo` and the `getStatus` responder, which `Content` models once:

| Chrome lines | Firefox lines | what |
|---|---|---|
| chrome/content.js:6-31 | firefox/content.js:14-48 | `getMediaInfo` and the `getStatus` responder |

Modules, one file each:

- `Js`: truthiness, `trim`, `includes`, the URL prefix test.
- `Tabs`: the filter and the stable sort by `index`.
- `Dom`: media elements, and the page the routine changes.
- `Background`: the coordinator.
- `Resume`: both resume routines.
- `Content`: media status, the responder, the Chrome reporter.
- `Popup`: the popup.

Two behaviours of the code are worth stating up front:

- Tracking is kept in memory only. Both background scripts keep `trackedTabs` in a `Set` (chrome/background.js:3, firefox/background.js:3) that is never written to storage. The `checkedTabs` map the popup stores is read back only by the popup, to set each switch's initial state.
- The Chrome routine does not catch a `play()` that throws at once: the error leaves the `forEach`, only the outer `catch` sees it, and the remaining elements are skipped (`Resume.ChromeRoutine`). The Firefox routine catches that error for each element.

## Model

| member | source | states |
|---|---|---|
| Js.Trim | firefox/popup.js:136 | the trimmed text has no white space at either end and is never longer than the input |
| Js.TrimStartDropsWhitespace | firefox/popup.js:136 | the leading part `trim` drops is all white space, and what it keeps is a suffix of the input |
| Js.TrimEndDropsWhitespace | firefox/popup.js:136 | the trailing part `trim` drops is all white space, and what it keeps is a prefix of its input |
| Js.TrimEmptyIffAllWhitespace | firefox/popup.js:136 | the trimmed text is empty exactly when the input is all white space |
| Js.TrimIsSlice | firefox/background.js:140 | trimming only removes white space around a slice of the input |
| Js.TrimIdempotent | firefox/background.js:154-156 | trimming an already trimmed selector changes nothing |
| Js.OrEmptyTrimmed | chrome/background.js:105-107 | the "or empty, then trim" step gives `""` for falsy values and the trimmed text for strings. It throws exactly when the value is truthy and not a string |
| Tabs.Filter | firefox/background.js:102-105 | every kept tab is tracked and has an http(s) URL, and the result is never longer than the input |
| Tabs.FilterCounts | firefox/background.js:102-105 | keeps each tracked tab with an http(s) URL, as often as it occurs, and nothing else |
| Tabs.FilterAppend | firefox/background.js:102-105 | the filter keeps input order: filtering a concatenation concatenates the filtered parts |
| Tabs.SortByIndex | firefox/background.js:106 | the result is in non-decreasing `index` order and is a permutation of the input |
| Tabs.SortIsStable | firefox/background.js:106 | tabs that share an `index` keep their input order |
| Tabs.Targets | firefox/background.js:102-106 | a tick's targets are in non-decreasing `index` order |
| Tabs.TargetsAreSelected | firefox/background.js:102-106 | the targets are exactly the tracked http(s) tabs, each with its multiplicity. Untracked and non-http(s) tabs are never targets |
| Tabs.TargetsKeepQueryOrder | chrome/background.js:39-43 | targets that share an `index` come in the order `tabs.query` listed them |
| Tabs.OnlyHttpTabIsTargeted | chrome/background.js:40-42 | of a tracked `https://` tab and a tracked `chrome://` tab, only the first is targeted |
| Background.ApplyToggle | firefox/background.js:119-121 | a `toggleTrack` message with a numeric `tabId` adds the id when `enable` is truthy and removes it otherwise. No other id changes. Any other message changes nothing |
| Background.ToggleIdempotent | chrome/background.js:70-72 | repeating the same message leaves the set unchanged |
| Background.LoadedSettings | firefox/background.js:134-147 | a successful load gives the trimmed selector (`""` when absent) and the flag's truthiness. A failed load, or a selector whose `trim` throws, gives `""` and `false`. The selector is always trimmed |
| Background.ApplyChanges | firefox/background.js:151-161 | a non-`local` area changes nothing. A `local` change updates only the keys present, with trimming and boolean coercion. A falsy new selector (a removed key, `null`, `false`, `0`, `""`) becomes `""`. A selector whose `trim` throws leaves both values unchanged. Trimmed stays trimmed |
| Background.SelectorForCode | firefox/background.js:42-45 | the routine's selector is the trimmed cached selector when the mask is enabled, and `""` otherwise. |
| Background.NoSelectorForCode | firefox/background.js:42-45 | the routine gets no selector exactly when the mask is off or the cached selector is all white space |
| Background.Coordinator.constructor | firefox/background.js:3-6 | no tab is tracked and the mask settings are `""` / `false` at start |
| Background.Coordinator.HandleMessage | firefox/background.js:117-129 | the tracked set becomes `ApplyToggle` of the old set. The mask cache is unchanged. A handled toggle is answered `{success: true}`; any other message gets no reply |
| Background.Coordinator.LoadMaskSettings | chrome/background.js:85-98 | the cache becomes `LoadedSettings` of the storage result; the tracked set is unchanged |
| Background.Coordinator.OnStorageChanged | chrome/background.js:102-112 | the cache becomes `ApplyChanges` of the old cache; the tracked set is unchanged |
| Background.Coordinator.ResumeInTabs | firefox/background.js:107-109 | one injection per tab, in order, each with `SelectorForCode` of the cache and the cached flag |
| Background.Coordinator.TickFirefox | firefox/background.js:99-114 | a failed query injects nothing. Otherwise there is one injection per target, in target order, each with `SelectorForCode` of the cache and the cached flag |
| Background.Coordinator.InjectInTabs | chrome/background.js:44-60 | one `executeScript` per tab, in order, each with the cached selector and flag as arguments |
| Background.Coordinator.TickChrome | chrome/background.js:36-65 | a failed query injects nothing. Otherwise there is one `executeScript` per target, in target order, each with the cached selector and flag as arguments |
| Background.FirefoxTickTargetsOnlySelected | firefox/background.js:102-109 | every tab a tick injects into is tracked and shows an http(s) page |
| Resume.SelectorToUse | chrome/background.js:11-14 | `selectorToUse` is the trimmed selector when `maskEnabled` is truthy and the selector is a string, and `""` otherwise |
| Resume.FirefoxRoutine | firefox/background.js:46-74 | `play` is called on exactly the paused elements, whatever earlier calls did. The mask is hidden only when the mask is enabled, the selector is non-empty, the lookup finds an element and some element was paused. A failed lookup or a missing match changes nothing |
| Resume.ChromeRoutine | chrome/background.js:9-33 | `play` is called on the paused elements up to and including the first whose `play` throws at once. The mask is hidden only when `selectorToUse` is non-empty, the lookup finds an element and some element got `play`. A failed lookup still lets `play` run |
| Resume.SameMaskDecision | chrome/background.js:48-49 | given the same cached settings, both browsers' routines decide the same way whether to hide the mask |
| Resume.ChromeReachesAllWithoutSyncThrow | chrome/background.js:15-27 | when no paused element's `play` throws at once, the Chrome routine calls `play` on exactly the elements the Firefox routine does |
| Resume.ChromeStopsAfterSyncThrow | chrome/background.js:15-27 | after a paused element whose `play` throws at once, the Chrome routine calls `play` on no later element |
| Content.StatusOf | firefox/content.js:14-22 | `playing` implies `hasMedia` |
| Content.GetMediaInfo | chrome/content.js:6-18 | `hasMedia` holds exactly when some element exists. `playing` holds exactly when some element is neither paused nor muted |
| Content.RespondToMessage | firefox/content.js:38-48 | only `getStatus` is answered: with the page's status, or with `{false, false, error}` when computing it throws |
| Content.Reporter.constructor | chrome/content.js:52-55 | the reporter starts active |
| Content.Reporter.Tick | chrome/content.js:34-55 | a stopped reporter sends nothing and stays stopped. Otherwise it sends the page's status. A thrown error whose message contains "Extension context invalidated" stops it; any other outcome leaves it running |
| Content.Reporter.Unload | chrome/content.js:58-60 | unloading the page stops the reporter |
| Popup.InitialMaskCache | firefox/popup.js:120-134 | the cache starts at the trimmed stored selector (`""` when absent or null) and the flag's truthiness. A non-string selector makes the load fail |
| Popup.PersistWrite | firefox/popup.js:135-147 | nothing is written exactly when the trimmed input and the flag equal the cache. Otherwise the trimmed selector, never the raw input, is written with the flag |
| Popup.MaskEditor.constructor | firefox/popup.js:133-134 | the editor's cache starts at the given settings |
| Popup.MaskEditor.Persist | firefox/popup.js:135-154 | the write is `PersistWrite` of the cache. The cache moves to the written values only after a successful write. A failed write leaves the cache unchanged and shows the error |
| Popup.PersistDeduplicates | firefox/popup.js:137-142 | after a successful write, any input that trims to the same selector writes nothing |
| Popup.PersistRoundTrip | firefox/popup.js:144-149 | a background cache that agreed with the popup's ends up with exactly the settings the popup wrote, once it applies the write's change records |
| Popup.RebuiltChecked | firefox/popup.js:221-224 | switching on sets the tab's key to `true`; switching off removes it. No other key changes |
| Popup.ToggleMessage | firefox/popup.js:211-219 | the switch sends a `toggleTrack` message for its tab whose `enable` is the new switch state |
| Popup.SwitchAgreesWithTracker | firefox/popup.js:209-224 | after one switch change, the background's membership of that tab equals the written map's entry for it |
| Popup.StaleSnapshotDropsEarlierToggle | firefox/popup.js:221 | as written: two tabs switched on in one session are both tracked, but the stored map has lost the first |
| Popup.LatestRebuildMatchesTracker | firefox/popup.js:221-224 | rebuilding from the latest map keeps the stored ids equal to the tracked set through any session |
| Popup.TabHasMedia | firefox/popup.js:85-104 | the first answer decides when there is one. Otherwise, after a successful injection, the second answer decides. A failed injection or a second missing answer gives `hasMedia: false` |
| Popup.RenderTabs | firefox/popup.js:179-235 | rows are numbered 1..n in the given order. A switch is shown exactly for tabs with media, and its initial state is the truthiness of the tab's `checkedTabs` entry |
| Popup.OpenPopup | firefox/popup.js:106-240 | a failed query or storage read, or a bad stored selector, shows the load error. No tabs shows the empty message. Otherwise the tabs are listed in non-decreasing `index` order as a permutation, numbered 1..n, with the initial mask cache. Each shown switch starts at the truthiness of the tab's stored `checkedTabs` entry |

## Findings

| source | as written | input that shows it | evidently intended | confidence | as-written member | corrected member |
|---|---|---|---|---|---|---|
| firefox/popup.js:221 | each switch's listener copies the `checkedTabs` read when the popup loaded | in one popup session, switch tab 1 on, then tab 2 on: storage ends as `{2: true}` while the background tracks 1 and 2. On reopening, tab 1's switch shows off | each write starts from the map the previous write stored | medium, not executed | Popup.StaleSnapshotDropsEarlierToggle | Popup.LatestRebuildMatchesTracker |

## Left out

- Browser API wrappers are not modelled: `queryTabs`, `getAllTabs`, `storageGet`, `storageSet`, `injectContentScript`, `executeScript`, `sendMessage`. Their results are inputs, either success values or `None` for failure.
- Timers are not modelled: `setInterval` and the one-second cadence. A tick or a report is one explicit call.
- The order in which asynchronous injections, replies and storage writes complete is not modelled. This includes two `persistMaskSettings` calls whose writes overlap.
- DOM rendering and event wiring in the popup are not modelled: elements, class names, the title text `tab.title || tab.url`, and the error banner's styling. A banner is a boolean result.
- The input and checkbox listeners (firefox/popup.js:156-174) only choose the arguments of `persistMaskSettings`. `MaskEditor.Persist` takes those arguments as parameters.
- Firefox's generation of the injected code string (`JSON.stringify` escaping) is not modelled. The routine takes the selector and flag directly.
- CSS selector matching is not modelled. A lookup is an input: it throws, finds nothing, or finds the mask.
- The promise semantics of `play()` and autoplay policy are not modelled. A call's outcome is an input: starts, rejects later, or throws at once.
- `trim` uses a fixed set of white-space characters. The `^https?://` test is a case-sensitive prefix check.
- Numbers are integers only. `NaN` and fractional tab ids, which `typeof` also calls numbers, are not modelled.
- `console` logging is not modelled.
- The toggle handler's `catch` branch (`{success: false}`) is not modelled. Reading `message.action` throws only for a `null` or `undefined` message, and every sender in the extension sends an object; adding to or deleting from a set cannot throw.
- The Firefox content script's start-up check (firefox/content.js:5-12) is not modelled. When no extension runtime exists, it installs nothing. The model assumes a runtime.
- The Firefox content script's periodic report (firefox/content.js:24-35, 50-58) is not modelled. It catches every error and never stops, so it has no lifecycle. It sends `Content.StatusOf` of the page.
- `Popup.TabHasMedia` does not model a reply without a payload. There, `resp.hasMedia` throws inside the callback, and the promise for that tab never settles.
- `Popup.StaleSnapshotDropsEarlierToggle`, `Popup.LatestRebuildMatchesTracker` and `Popup.SwitchAgreesWithTracker` (through `Popup.TrackedAfter`) assume every toggle message reaches the background and every storage write in the session succeeds. The popup resolves the switch's message even when `sendMessage` reports `runtime.lastError`, and writes storage anyway.
