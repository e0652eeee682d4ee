/** The Firefox popup: the mask-settings editor with its de-duplicating writes, the
    per-tab switches and the `checkedTabs` map they persist, and the tab list. */
module Popup {
  import opened Js
  import opened Tabs
  import opened Background

  /** The three storage entries the popup reads on load (`Undefined` when absent;
      `checkedTabs` defaults to the empty map). Keys of `checkedTabs` are tab ids. */
  datatype PopupStored = PopupStored(checkedTabs: map<int, JsValue>, selector: JsValue, enabled: JsValue)

  /** The starting values of `currentMaskSelector` / `currentMaskEnabled`:
      `maskElementSelector?.trim() || ""` (an absent selector defaults to `""`) and
      `!!maskElementEnabled`. `None` is the TypeError of calling `trim` on a boolean,
      number or object, which makes the whole load fail. */
  function InitialMaskCache(selector: JsValue, enabled: JsValue): (r: Option<MaskSettings>)
    ensures r.None? <==> !(selector.Undefined? || selector.Null? || selector.Str?)
    ensures r.Some? ==> IsTrimmed(r.value.selector) && r.value.enabled == Truthy(enabled)
    ensures selector.Str? ==> r == Some(MaskSettings(Trim(selector.s), Truthy(enabled)))
    ensures selector.Undefined? || selector.Null? ==> r == Some(MaskSettings("", Truthy(enabled)))
  {
    match selector
    case Undefined => Some(MaskSettings("", Truthy(enabled)))
    case Null => Some(MaskSettings("", Truthy(enabled)))
    case Str(s) => Some(MaskSettings(Trim(s), Truthy(enabled)))
    case _ => None
  }

  /** What `persistMaskSettings` writes, given the cached values: nothing when the trimmed
      input and the flag equal the cache, otherwise the trimmed selector and the flag. */
  function PersistWrite(current: MaskSettings, selectorValue: string, enabled: bool): (w: Option<MaskSettings>)
    ensures w.None? <==> Trim(selectorValue) == current.selector && enabled == current.enabled
    ensures w.Some? ==> w.value.selector == Trim(selectorValue) && w.value.enabled == enabled
    ensures w.Some? ==> IsTrimmed(w.value.selector) && w.value != current
  {
    var normalized := Trim(selectorValue);
    if normalized == current.selector && enabled == current.enabled then None
    else Some(MaskSettings(normalized, enabled))
  }

  /** The mask editor's closure state: `currentMaskSelector` and `currentMaskEnabled`. */
  class MaskEditor {
    var current: MaskSettings

    constructor (initial: MaskSettings)
      ensures current == initial
    {
      current := initial;
    }

    /** `persistMaskSettings(selectorValue, enabled)`, given whether `storage.local.set`
        succeeds. Returns the write it attempts and whether it shows the error banner. The
        cache moves to the written values only after a successful write. */
    method Persist(selectorValue: string, enabled: bool, writeSucceeds: bool)
      returns (write: Option<MaskSettings>, errorShown: bool)
      modifies this
      ensures write == PersistWrite(old(current), selectorValue, enabled)
      ensures current == if write.Some? && writeSucceeds then write.value else old(current)
      ensures errorShown <==> write.Some? && !writeSucceeds
    {
      write := None;
      errorShown := false;
      var normalized := Trim(selectorValue);
      if normalized == current.selector && enabled == current.enabled {
        return;
      }
      write := Some(MaskSettings(normalized, enabled));
      if writeSucceeds {
        current := MaskSettings(normalized, enabled);
      } else {
        errorShown := true;
      }
    }
  }

  /** After a successful write, the same input again (or any input that trims to the
      same selector) writes nothing. */
  lemma PersistDeduplicates(current: MaskSettings, selectorValue: string, again: string, enabled: bool)
    requires PersistWrite(current, selectorValue, enabled).Some?
    requires Trim(again) == Trim(selectorValue)
    ensures PersistWrite(PersistWrite(current, selectorValue, enabled).value, again, enabled).None?
  {
  }

  /** The write's change records reach a background script whose cache agreed with the
      popup's: whichever of the two keys storage reports (at least every key whose value
      changed), the background ends up with exactly the settings the popup wrote. */
  lemma PersistRoundTrip(current: MaskSettings, selectorValue: string, enabled: bool, changes: MaskChanges)
    requires PersistWrite(current, selectorValue, enabled).Some?
    requires changes.selector.Some? ==> changes.selector.value == Str(Trim(selectorValue))
    requires changes.enabled.Some? ==> changes.enabled.value == Bool(enabled)
    requires Trim(selectorValue) != current.selector ==> changes.selector.Some?
    requires enabled != current.enabled ==> changes.enabled.Some?
    ensures ApplyChanges(current, changes, LocalArea) == PersistWrite(current, selectorValue, enabled).value
  {
    var sel := Trim(selectorValue);
    assert PersistWrite(current, selectorValue, enabled).value == MaskSettings(sel, enabled);
    var selector := if changes.selector.Some? then OrEmptyTrimmed(changes.selector.value) else Some(current.selector);
    assert selector == Some(sel) by {
      if changes.selector.Some? {
        TrimIdempotent(selectorValue);
      }
    }
    var flag := if changes.enabled.Some? then Truthy(changes.enabled.value) else current.enabled;
    assert flag == enabled;
    assert ApplyChanges(current, changes, LocalArea) == MaskSettings(sel, flag);
  }

  /** `!!checkedTabs[tab.id]`: the initial state of a tab's switch. */
  predicate Checked(checkedTabs: map<int, JsValue>, tabId: int) {
    tabId in checkedTabs && Truthy(checkedTabs[tabId])
  }

  /** The `checkedTabs` a switch change writes: a copy of `snapshot` with `tabId` set to
      `true` when switched on, and without `tabId` when switched off. */
  function RebuiltChecked(snapshot: map<int, JsValue>, tabId: int, checked: bool): (m: map<int, JsValue>)
    ensures m.Keys == if checked then snapshot.Keys + {tabId} else snapshot.Keys - {tabId}
    ensures checked ==> m[tabId] == Bool(true)
    ensures forall k :: k in m && k != tabId ==> m[k] == snapshot[k]
    ensures Checked(m, tabId) == checked
  {
    if checked then snapshot[tabId := Bool(true)] else snapshot - {tabId}
  }

  /** The message a switch change sends to the background script. */
  function ToggleMessage(tabId: int, checked: bool): (m: Message)
    ensures IsToggle(m) && m.tabId == Num(tabId) && Truthy(m.enable) == checked
  {
    Message(ToggleAction, Num(tabId), Bool(checked))
  }

  /** One switch change leaves the background's tracked set and the written map agreeing
      on that tab. */
  lemma SwitchAgreesWithTracker(tracked: set<int>, snapshot: map<int, JsValue>, tabId: int, checked: bool)
    ensures (tabId in ApplyToggle(tracked, ToggleMessage(tabId, checked)))
        == Checked(RebuiltChecked(snapshot, tabId, checked), tabId)
  {
  }

  datatype Toggle = Toggle(tabId: int, checked: bool)

  /** The background's tracked set after a session of switch changes. */
  function TrackedAfter(tracked: set<int>, toggles: seq<Toggle>): set<int>
    decreases |toggles|
  {
    if toggles == [] then tracked
    else TrackedAfter(ApplyToggle(tracked, ToggleMessage(toggles[0].tabId, toggles[0].checked)), toggles[1..])
  }

  /** The stored `checkedTabs` after a session in which every write succeeds, as the
      popup is written: each write is the load-time snapshot plus that one change. */
  function StoredAsWritten(stored: map<int, JsValue>, snapshot: map<int, JsValue>, toggles: seq<Toggle>): map<int, JsValue>
    decreases |toggles|
  {
    if toggles == [] then stored
    else StoredAsWritten(RebuiltChecked(snapshot, toggles[0].tabId, toggles[0].checked), snapshot, toggles[1..])
  }

  /** Two switches turned on in one popup session: the background tracks both tabs, but
      the stored map has lost the first, so its switch shows off when the popup reopens. */
  lemma StaleSnapshotDropsEarlierToggle()
    ensures 1 in TrackedAfter({}, [Toggle(1, true), Toggle(2, true)])
    ensures !Checked(StoredAsWritten(map[], map[], [Toggle(1, true), Toggle(2, true)]), 1)
  {
    var toggles := [Toggle(1, true), Toggle(2, true)];
    assert toggles[1..] == [Toggle(2, true)];
    assert TrackedAfter({}, toggles) == TrackedAfter({1}, [Toggle(2, true)]);
    assert StoredAsWritten(map[], map[], toggles) == StoredAsWritten(map[1 := Bool(true)], map[], [Toggle(2, true)]);
  }

  /** The stored `checkedTabs` when each write starts from the latest map instead. */
  function StoredFromLatest(stored: map<int, JsValue>, toggles: seq<Toggle>): map<int, JsValue>
    decreases |toggles|
  {
    if toggles == [] then stored
    else StoredFromLatest(RebuiltChecked(stored, toggles[0].tabId, toggles[0].checked), toggles[1..])
  }

  /** Starting from a stored map whose ids are the tracked set, rebuilding from the latest
      map keeps the two equal through any session of switch changes. */
  lemma {:induction false} LatestRebuildMatchesTracker(stored: map<int, JsValue>, tracked: set<int>, toggles: seq<Toggle>)
    requires stored.Keys == tracked
    ensures StoredFromLatest(stored, toggles).Keys == TrackedAfter(tracked, toggles)
    decreases |toggles|
  {
    if toggles != [] {
      var t := toggles[0];
      var stored' := RebuiltChecked(stored, t.tabId, t.checked);
      var tracked' := ApplyToggle(tracked, ToggleMessage(t.tabId, t.checked));
      assert stored'.Keys == tracked';
      LatestRebuildMatchesTracker(stored', tracked', toggles[1..]);
    }
  }

  /** The answer to one `getStatus` message: none (`runtime.lastError`, no content
      script listening), or the reply's `hasMedia`. */
  datatype StatusAnswer = NoReceiver | Answered(hasMedia: bool)

  /** What `getTabMediaInfo` meets: the first answer, whether injecting the content
      script succeeded, and the answer after injecting. */
  datatype Probe = Probe(first: StatusAnswer, injected: bool, second: StatusAnswer)

  /** `getTabMediaInfo(tabId).hasMedia`: the first answer when there is one; otherwise
      the answer after injecting the content script; `false` when any step fails. */
  function TabHasMedia(p: Probe): (r: bool)
    ensures p.first.Answered? ==> r == p.first.hasMedia
    ensures p.first.NoReceiver? && !p.injected ==> !r
    ensures p.first.NoReceiver? && p.second.NoReceiver? ==> !r
    ensures p.first.NoReceiver? && p.injected && p.second.Answered? ==> r == p.second.hasMedia
    ensures r ==> (p.first.Answered? || (p.injected && p.second.Answered?))
  {
    match p.first
    case Answered(hasMedia) => hasMedia
    case NoReceiver =>
      if !p.injected then false
      else match p.second
        case NoReceiver => false
        case Answered(hasMedia) => hasMedia
  }

  /** One entry of the list: its 1-based number, its tab, and its switch (shown only
      for a tab with media; its value is the initial `checked` state). */
  datatype Row = Row(number: nat, tab: Tab, switch: Option<bool>)

  /** The render loop over the sorted tabs. `probe` gives what `getTabMediaInfo` meets
      for a tab id. */
  method RenderTabs(sorted: seq<Tab>, probe: int -> Probe, checkedTabs: map<int, JsValue>)
    returns (rows: seq<Row>)
    ensures |rows| == |sorted|
    ensures forall i :: 0 <= i < |rows| ==> rows[i].number == i + 1 && rows[i].tab == sorted[i]
    ensures forall i :: 0 <= i < |rows| ==>
      (rows[i].switch.Some? <==> TabHasMedia(probe(sorted[i].id)))
    ensures forall i :: 0 <= i < |rows| && rows[i].switch.Some? ==>
      rows[i].switch.value == Checked(checkedTabs, sorted[i].id)
  {
    rows := [];
    for idx := 0 to |sorted|
      invariant |rows| == idx
      invariant forall i :: 0 <= i < idx ==> rows[i].number == i + 1 && rows[i].tab == sorted[i]
      invariant forall i :: 0 <= i < idx ==>
        (rows[i].switch.Some? <==> TabHasMedia(probe(sorted[i].id)))
      invariant forall i :: 0 <= i < idx && rows[i].switch.Some? ==>
        rows[i].switch.value == Checked(checkedTabs, sorted[i].id)
    {
      var tab := sorted[idx];
      var hasMedia := TabHasMedia(probe(tab.id));
      var switch := if hasMedia then Some(tab.id in checkedTabs && Truthy(checkedTabs[tab.id])) else None;
      rows := rows + [Row(idx + 1, tab, switch)];
    }
  }

  /** What the popup shows once loaded. */
  datatype PopupView = LoadFailed | NoTabs | Listed(rows: seq<Row>, mask: MaskSettings)

  /** The `DOMContentLoaded` handler, given what `tabs.query` and `storage.local.get`
      produced (`None`: the call failed). */
  method OpenPopup(tabs: Option<seq<Tab>>, stored: Option<PopupStored>, probe: int -> Probe)
    returns (view: PopupView)
    ensures tabs.None? ==> view == LoadFailed
    ensures tabs == Some([]) ==> view == NoTabs
    ensures tabs.Some? && tabs.value != [] && stored.None? ==> view == LoadFailed
    ensures tabs.Some? && tabs.value != [] && stored.Some? ==>
      (view.Listed? <==> InitialMaskCache(stored.value.selector, stored.value.enabled).Some?)
    ensures (tabs.Some? && tabs.value != [] && stored.Some?
      && InitialMaskCache(stored.value.selector, stored.value.enabled).None?) ==> view == LoadFailed
    ensures view.Listed? ==> (
      && tabs.Some? && stored.Some?
      && Some(view.mask) == InitialMaskCache(stored.value.selector, stored.value.enabled)
      && |view.rows| == |tabs.value|
      && (forall i, j :: 0 <= i < j < |view.rows| ==> view.rows[i].tab.index <= view.rows[j].tab.index)
      && (forall i :: 0 <= i < |view.rows| ==>
            view.rows[i].number == i + 1
            && view.rows[i].tab == SortByIndex(tabs.value)[i]
            && (view.rows[i].switch.Some? <==> TabHasMedia(probe(view.rows[i].tab.id)))
            && (view.rows[i].switch.Some? ==>
                  view.rows[i].switch.value == Checked(stored.value.checkedTabs, view.rows[i].tab.id))))
  {
    if tabs.None? {
      return LoadFailed;
    }
    if tabs.value == [] {
      return NoTabs;
    }
    if stored.None? {
      return LoadFailed;
    }
    var mask := InitialMaskCache(stored.value.selector, stored.value.enabled);
    if mask.None? {
      return LoadFailed;
    }
    var sorted := SortByIndex(tabs.value);
    var rows := RenderTabs(sorted, probe, stored.value.checkedTabs);
    view := Listed(rows, mask.value);
  }
}
