/** The resume routine each tick injects into a target tab: for every paused media
    element, hide the mask element when one is configured, then call `play`.
    Firefox injects it as generated code with the selector and flag baked in
    (`FirefoxRoutine`); Chrome injects `checkMediaPlaybackAndResume` with the cached
    settings as arguments (`ChromeRoutine`). `played[i]` records whether `play` was
    called on the i-th element. */
module Resume {
  import opened Js
  import opened Dom
  import opened Background

  /** `selectorToUse` of `checkMediaPlaybackAndResume`: the trimmed selector when
      `maskEnabled` is truthy and the selector is a string, `""` otherwise. */
  function SelectorToUse(maskSelector: JsValue, maskEnabled: JsValue): (r: string)
    ensures IsTrimmed(r)
    ensures r != "" ==> Truthy(maskEnabled) && maskSelector.Str?
    ensures Truthy(maskEnabled) && maskSelector.Str? ==> r == Trim(maskSelector.s)
  {
    if Truthy(maskEnabled) && maskSelector.Str? then Trim(maskSelector.s) else ""
  }

  /** The Chrome routine reaches element `i` unless an earlier paused element's `play`
      threw: that exception leaves the `forEach` and only the outer `catch` sees it. */
  predicate ReachedByChrome(media: seq<Media>, i: int) {
    forall j :: 0 <= j < i && j < |media| ==> !(media[j].paused && media[j].play == ThrowsSync)
  }

  /** The routine injected by the Firefox background script. Every paused element gets
      `play`, whatever earlier calls did (each failure is caught where it happens); no
      element that is playing gets it. The mask is hidden only when the mask is enabled,
      the selector is non-empty, the lookup finds an element, and some element was paused. */
  method FirefoxRoutine(page: Page, selector: string, maskEnabled: bool) returns (played: seq<bool>)
    modifies page
    ensures |played| == |page.media|
    ensures forall i :: 0 <= i < |played| ==> played[i] == page.media[i].paused
    ensures page.maskHidden == (old(page.maskHidden) ||
      (maskEnabled && selector != "" && page.lookup == Match && true in played))
  {
    played := [];
    for i := 0 to |page.media|
      invariant |played| == i
      invariant forall j :: 0 <= j < i ==> played[j] == page.media[j].paused
      invariant page.maskHidden == (old(page.maskHidden) ||
        (maskEnabled && selector != "" && page.lookup == Match && true in played))
    {
      var media := page.media[i];
      if !media.paused {
        played := played + [false];
      } else {
        if maskEnabled && selector != "" {
          match page.lookup
          case LookupThrows => // caught and logged
          case NoMatch =>
          case Match => page.maskHidden := true;
        }
        // a throw from `play` is caught here, a rejection by the promise's `catch`
        played := played + [true];
      }
    }
  }

  /** `checkMediaPlaybackAndResume`. Paused elements get `play` in order until one
      `play` throws at once, which ends the loop; a rejected promise does not. A failed
      mask lookup is caught and `play` is still called. The mask is hidden only when
      `selectorToUse` is non-empty, the lookup finds an element, and some element got
      `play`. */
  method ChromeRoutine(page: Page, maskSelector: JsValue, maskEnabled: JsValue) returns (played: seq<bool>)
    modifies page
    ensures |played| == |page.media|
    ensures forall i :: 0 <= i < |played| ==>
      played[i] == (page.media[i].paused && ReachedByChrome(page.media, i))
    ensures page.maskHidden == (old(page.maskHidden) ||
      (SelectorToUse(maskSelector, maskEnabled) != "" && page.lookup == Match && true in played))
  {
    var selectorToUse := SelectorToUse(maskSelector, maskEnabled);
    played := [];
    var i := 0;
    var aborted := false;
    while i < |page.media| && !aborted
      invariant 0 <= i <= |page.media| && |played| == i
      invariant aborted <==> !ReachedByChrome(page.media, i)
      invariant forall j :: 0 <= j < i ==>
        played[j] == (page.media[j].paused && ReachedByChrome(page.media, j))
      invariant page.maskHidden == (old(page.maskHidden) ||
        (selectorToUse != "" && page.lookup == Match && true in played))
    {
      var media := page.media[i];
      if media.paused {
        if selectorToUse != "" {
          match page.lookup
          case LookupThrows => // caught and logged
          case NoMatch =>
          case Match => page.maskHidden := true;
        }
        played := played + [true];
        // `play()` throwing, or returning no promise to call `catch` on, ends the forEach
        aborted := media.play == ThrowsSync;
      } else {
        played := played + [false];
      }
      i := i + 1;
    }
    // elements after the one whose `play` threw are never visited
    var rest := seq(|page.media| - i, _ => false);
    assert true !in rest;
    played := played + rest;
  }

  /** Both background scripts hand the same cached settings to their routine, and both
      routines then decide the same way whether to hide the mask. */
  lemma SameMaskDecision(mask: MaskSettings)
    ensures (mask.enabled && SelectorForCode(mask) != "")
        == (SelectorToUse(Str(mask.selector), Bool(mask.enabled)) != "")
  {
  }

  /** When no paused element's `play` throws at once, the Chrome routine calls `play` on
      exactly the elements the Firefox routine does: `played[i]` of `ChromeRoutine` and of
      `FirefoxRoutine` agree at every index. */
  lemma ChromeReachesAllWithoutSyncThrow(media: seq<Media>)
    requires forall j :: 0 <= j < |media| ==> !(media[j].paused && media[j].play == ThrowsSync)
    ensures forall i :: 0 <= i < |media| ==>
      (media[i].paused && ReachedByChrome(media, i)) == media[i].paused
  {
  }

  /** Conversely, past a paused element whose `play` throws at once, the Chrome routine
      calls `play` on no element, while the Firefox routine still calls it on every
      paused one. */
  lemma ChromeStopsAfterSyncThrow(media: seq<Media>, k: int, i: int)
    requires 0 <= k < i < |media|
    requires media[k].paused && media[k].play == ThrowsSync
    ensures !(media[i].paused && ReachedByChrome(media, i))
  {
  }
}
