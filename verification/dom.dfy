/** The parts of a page the extension looks at: its `audio`/`video` elements and the
    element the mask selector picks out. */
module Dom {

  /** What `media.play()` does: start (or return a promise that resolves), return a
      promise that rejects (for example under an autoplay policy), or throw at once
      (which also stands for a `play` that returns no promise at all). */
  datatype PlayOutcome = Starts | Rejects | ThrowsSync

  /** An `audio` or `video` element, in the order `querySelectorAll("audio, video")` lists them. */
  datatype Media = Media(paused: bool, muted: bool, play: PlayOutcome)

  /** What `document.querySelector(selector)` does for the mask selector: throw (an
      invalid selector), find nothing, or return the first matching element. */
  datatype MaskLookup = LookupThrows | NoMatch | Match

  /** A page the resume routine runs in. The media list and the selector lookup are
      fixed while the routine runs; the mask's `style.display` is what it changes. */
  class Page {
    const media: seq<Media>
    const lookup: MaskLookup
    /** `mask.style.display === "none"` for the element `lookup` finds. */
    var maskHidden: bool

    constructor (media: seq<Media>, lookup: MaskLookup)
      ensures this.media == media && this.lookup == lookup && !maskHidden
    {
      this.media := media;
      this.lookup := lookup;
      maskHidden := false;
    }
  }
}
