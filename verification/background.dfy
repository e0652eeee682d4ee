/** The background coordinator both browsers run: the set of tracked tab ids, changed
    only by `toggleTrack` messages; the cached mask settings, loaded from storage and
    kept current by storage change events; and the tick that picks the tabs to resume.
    The two background scripts differ only in how a tick hands the mask settings to the
    resume routine (`TickFirefox`, `TickChrome`). */
module Background {
  import opened Js
  import opened Tabs

  const ToggleAction := "toggleTrack"
  const LocalArea := "local"

  /** The mask settings: a CSS selector and whether hiding is on. */
  datatype MaskSettings = MaskSettings(selector: string, enabled: bool)

  const Defaults := MaskSettings("", false)

  /** A runtime message; absent properties read as `Undefined`. */
  datatype Message = Message(action: string, tabId: JsValue, enable: JsValue)

  /** The `{ success: true }` reply to a handled toggle. */
  datatype Reply = Reply(success: bool)

  /** The part of a `storage.onChanged` record the listener reads: the new value of
      `maskElementSelector` and of `maskElementEnabled`, each `None` when that key is not
      an own property of `changes` (a removed key's new value is `Undefined`). */
  datatype MaskChanges = MaskChanges(selector: Option<JsValue>, enabled: Option<JsValue>)

  /** The two storage entries `loadMaskSettings` asks for (`Undefined` when absent). */
  datatype StoredMask = StoredMask(selector: JsValue, enabled: JsValue)

  /** One resume injection of the Firefox background script: the tab, and the selector
      and flag written into the injected code. */
  datatype FirefoxCall = FirefoxCall(tabId: int, selector: string, maskEnabled: bool)

  /** One `scripting.executeScript` of the Chrome background script: the tab, and the
      two arguments handed to `checkMediaPlaybackAndResume`. */
  datatype ChromeCall = ChromeCall(tabId: int, maskSelector: JsValue, maskEnabled: JsValue)

  /** The message listener acts only on `toggleTrack` with a numeric `tabId`. */
  predicate IsToggle(m: Message) {
    m.action == ToggleAction && m.tabId.Num?
  }

  /** The tracked set after the message listener: a toggle adds its id when `enable` is
      truthy and removes it otherwise; no other id changes; any other message changes
      nothing. */
  function ApplyToggle(tracked: set<int>, m: Message): (r: set<int>)
    ensures !IsToggle(m) ==> r == tracked
    ensures IsToggle(m) ==> (m.tabId.n in r <==> Truthy(m.enable))
    ensures IsToggle(m) ==> forall id :: id != m.tabId.n ==> (id in r <==> id in tracked)
  {
    if !IsToggle(m) then tracked
    else if Truthy(m.enable) then tracked + {m.tabId.n}
    else tracked - {m.tabId.n}
  }

  /** Repeating a message changes nothing further. */
  lemma ToggleIdempotent(tracked: set<int>, m: Message)
    ensures ApplyToggle(ApplyToggle(tracked, m), m) == ApplyToggle(tracked, m)
  {
  }

  /** `loadMaskSettings`: the trimmed selector (`""` when absent or falsy) and the
      truthiness of the flag; a failed read, or a truthy selector that is not a string
      (its `trim` throws before anything is assigned), leaves the defaults. */
  function LoadedSettings(stored: Option<StoredMask>): (r: MaskSettings)
    ensures IsTrimmed(r.selector)
    ensures stored.None? ==> r == Defaults
    ensures stored.Some? && stored.value.selector.Str?
      ==> r == MaskSettings(Trim(stored.value.selector.s), Truthy(stored.value.enabled))
    ensures r.enabled <==> stored.Some? && Truthy(stored.value.enabled)
                           && OrEmptyTrimmed(stored.value.selector).Some?
    ensures r.selector != "" ==> stored.Some? && stored.value.selector.Str?
  {
    match stored
    case None => Defaults
    case Some(s) =>
      match OrEmptyTrimmed(s.selector)
      case None => Defaults
      case Some(sel) => MaskSettings(sel, Truthy(s.enabled))
  }

  /** The `storage.onChanged` listener. Only the `local` area is heeded, and only keys
      present in `changes` are updated. A truthy non-string new selector throws in
      `trim`, which ends the listener before it looks at the flag. */
  function ApplyChanges(mask: MaskSettings, changes: MaskChanges, area: string): (r: MaskSettings)
    ensures area != LocalArea ==> r == mask
    ensures changes.selector.None? ==> r.selector == mask.selector
    ensures changes.enabled.None? ==> r.enabled == mask.enabled
    ensures area == LocalArea && changes.selector.Some? && OrEmptyTrimmed(changes.selector.value).Some?
      ==> r.selector == OrEmptyTrimmed(changes.selector.value).value
    ensures area == LocalArea && changes.selector.Some? && changes.selector.value.Str?
      ==> r.selector == Trim(changes.selector.value.s)
    ensures area == LocalArea && changes.selector.Some? && !Truthy(changes.selector.value)
      ==> r.selector == ""
    ensures area == LocalArea && changes.enabled.Some?
      && (changes.selector.None? || OrEmptyTrimmed(changes.selector.value).Some?)
      ==> r.enabled == Truthy(changes.enabled.value)
    ensures area == LocalArea && changes.selector.Some? && OrEmptyTrimmed(changes.selector.value).None?
      ==> r == mask
    ensures IsTrimmed(mask.selector) ==> IsTrimmed(r.selector)
  {
    if area != LocalArea then mask
    else
      var selector := if changes.selector.Some? then OrEmptyTrimmed(changes.selector.value) else Some(mask.selector);
      match selector
      case None => mask
      case Some(sel) =>
        MaskSettings(sel, if changes.enabled.Some? then Truthy(changes.enabled.value) else mask.enabled)
  }

  /** `selectorForCode` in `runResumeInTab`: the trimmed selector when the mask is
      enabled, `""` otherwise. */
  function SelectorForCode(mask: MaskSettings): (r: string)
    ensures IsTrimmed(r)
    ensures mask.enabled ==> r == Trim(mask.selector)
  {
    if mask.enabled then Trim(mask.selector) else ""
  }

  /** The routine gets no selector exactly when the mask is off or the cached selector
      is all white space. */
  lemma NoSelectorForCode(mask: MaskSettings)
    ensures SelectorForCode(mask) == "" <==> !mask.enabled || AllWhitespace(mask.selector)
  {
    TrimEmptyIffAllWhitespace(mask.selector);
  }

  /** The module-level state of a background script. */
  class Coordinator {
    /** `trackedTabs` */
    var tracked: set<int>
    /** `maskElementSelector` and `maskElementEnabled` */
    var mask: MaskSettings

    constructor ()
      ensures tracked == {} && mask == Defaults
    {
      tracked := {};
      mask := Defaults;
    }

    /** The `runtime.onMessage` listener. */
    method HandleMessage(m: Message) returns (reply: Option<Reply>)
      modifies this
      ensures tracked == ApplyToggle(old(tracked), m)
      ensures mask == old(mask)
      ensures reply == if IsToggle(m) then Some(Reply(true)) else None
    {
      reply := None;
      if m.action == ToggleAction && m.tabId.Num? {
        if Truthy(m.enable) {
          tracked := tracked + {m.tabId.n};
        } else {
          tracked := tracked - {m.tabId.n};
        }
        reply := Some(Reply(true));
      }
    }

    /** `loadMaskSettings`, given what `storage.local.get` produced (`None`: it failed). */
    method LoadMaskSettings(stored: Option<StoredMask>)
      modifies this
      ensures mask == LoadedSettings(stored)
      ensures tracked == old(tracked)
    {
      if stored.None? {
        mask := Defaults;
        return;
      }
      var selector := OrEmptyTrimmed(stored.value.selector);
      if selector.None? {
        // the TypeError from `trim` is caught, and the catch block resets both
        mask := Defaults;
      } else {
        mask := MaskSettings(selector.value, mask.enabled);
        mask := mask.(enabled := Truthy(stored.value.enabled));
      }
    }

    /** The `storage.onChanged` listener. */
    method OnStorageChanged(changes: MaskChanges, area: string)
      modifies this
      ensures mask == ApplyChanges(old(mask), changes, area)
      ensures tracked == old(tracked)
    {
      if area != LocalArea {
        return;
      }
      if changes.selector.Some? {
        var selector := OrEmptyTrimmed(changes.selector.value);
        if selector.None? {
          // `trim` throws; the listener ends here
          return;
        }
        mask := mask.(selector := selector.value);
      }
      if changes.enabled.Some? {
        mask := mask.(enabled := Truthy(changes.enabled.value));
      }
    }

    /** `targets.forEach((tab) => runResumeInTab(tab.id))`: one injection per tab, in
        order, each carrying the selector `runResumeInTab` chooses from the cache and the
        cached flag. */
    method ResumeInTabs(targets: seq<Tab>) returns (calls: seq<FirefoxCall>)
      ensures |calls| == |targets|
      ensures forall i :: 0 <= i < |calls| ==>
        calls[i] == FirefoxCall(targets[i].id, SelectorForCode(mask), mask.enabled)
    {
      calls := [];
      // no step of the loop changes the cache, so every call chooses the same selector
      var selector, enabled := SelectorForCode(mask), mask.enabled;
      for i := 0 to |targets|
        invariant |calls| == i
        invariant forall j :: 0 <= j < i ==> calls[j] == FirefoxCall(targets[j].id, selector, enabled)
      {
        calls := calls + [FirefoxCall(targets[i].id, selector, enabled)];
      }
    }

    /** `checkAllTabs` of the Firefox background script, given what `tabs.query`
        produced (`None`: it failed). One injection per target, in target order. */
    method TickFirefox(tabs: Option<seq<Tab>>) returns (calls: seq<FirefoxCall>)
      ensures tabs.None? ==> calls == []
      ensures tabs.Some? ==> |calls| == |Targets(tabs.value, tracked)|
      ensures tabs.Some? ==> forall i :: 0 <= i < |calls| ==>
        calls[i] == FirefoxCall(Targets(tabs.value, tracked)[i].id, SelectorForCode(mask), mask.enabled)
    {
      calls := [];
      if tabs.Some? {
        calls := ResumeInTabs(Targets(tabs.value, tracked));
      }
    }

    /** The `forEach` of the Chrome `checkAllTabs`: one `executeScript` per tab, in
        order, each with the cached selector and flag as arguments. */
    method InjectInTabs(targets: seq<Tab>) returns (calls: seq<ChromeCall>)
      ensures |calls| == |targets|
      ensures forall i :: 0 <= i < |calls| ==>
        calls[i] == ChromeCall(targets[i].id, Str(mask.selector), Bool(mask.enabled))
    {
      calls := [];
      var selector, enabled := Str(mask.selector), Bool(mask.enabled);
      for i := 0 to |targets|
        invariant |calls| == i
        invariant forall j :: 0 <= j < i ==> calls[j] == ChromeCall(targets[j].id, selector, enabled)
      {
        calls := calls + [ChromeCall(targets[i].id, selector, enabled)];
      }
    }

    /** `checkAllTabs` of the Chrome background script: one `executeScript` per target,
        in target order. */
    method TickChrome(tabs: Option<seq<Tab>>) returns (calls: seq<ChromeCall>)
      ensures tabs.None? ==> calls == []
      ensures tabs.Some? ==> |calls| == |Targets(tabs.value, tracked)|
      ensures tabs.Some? ==> forall i :: 0 <= i < |calls| ==>
        calls[i] == ChromeCall(Targets(tabs.value, tracked)[i].id, Str(mask.selector), Bool(mask.enabled))
    {
      calls := [];
      if tabs.Some? {
        calls := InjectInTabs(Targets(tabs.value, tracked));
      }
    }
  }

  /** Every tab a Firefox tick injects into is tracked and shows an http(s) page. */
  lemma FirefoxTickTargetsOnlySelected(tabs: seq<Tab>, tracked: set<int>, calls: seq<FirefoxCall>, mask: MaskSettings)
    requires |calls| == |Targets(tabs, tracked)|
    requires forall i :: 0 <= i < |calls| ==>
      calls[i] == FirefoxCall(Targets(tabs, tracked)[i].id, SelectorForCode(mask), mask.enabled)
    ensures forall i :: 0 <= i < |calls| ==>
      exists t :: t in tabs && t.id == calls[i].tabId && t.id in tracked && IsHttpUrl(t.url)
  {
    var targets := Targets(tabs, tracked);
    TargetsAreSelected(tabs, tracked);
    forall i | 0 <= i < |calls|
      ensures exists t :: t in tabs && t.id == calls[i].tabId && t.id in tracked && IsHttpUrl(t.url)
    {
      assert targets[i] in targets;
    }
  }
}
