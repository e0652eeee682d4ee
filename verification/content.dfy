/** The content script both browsers inject into pages: it computes the page's media
    status, answers `getStatus` queries with it, and (in Chrome) reports it every second
    until the extension context is invalidated or the page unloads. */
module Content {
  import opened Js
  import opened Dom

  const StatusAction := "getStatus"
  const InvalidatedText := "Extension context invalidated"

  /** `{ hasMedia, playing }` */
  datatype MediaInfo = MediaInfo(hasMedia: bool, playing: bool)

  /** The reply to `getStatus`; `failed` stands for the `error` property the fallback
      reply carries. */
  datatype StatusReply = StatusReply(hasMedia: bool, playing: bool, failed: bool)

  /** An element counts as playing when it is neither paused nor muted. */
  predicate Audible(m: Media) {
    !m.paused && !m.muted
  }

  /** The status of a page: some media element exists; some element is audible. */
  function StatusOf(elements: seq<Media>): (info: MediaInfo)
    ensures info.playing ==> info.hasMedia
  {
    MediaInfo(|elements| > 0, exists i | 0 <= i < |elements| :: Audible(elements[i]))
  }

  /** `getMediaInfo`, over the list `querySelectorAll("audio, video")` returns. */
  method GetMediaInfo(elements: seq<Media>) returns (info: MediaInfo)
    ensures info == StatusOf(elements)
    ensures info.hasMedia <==> |elements| > 0
    ensures info.playing <==> exists i :: 0 <= i < |elements| && !elements[i].paused && !elements[i].muted
  {
    var hasMedia := |elements| > 0;
    var playing := false;
    for i := 0 to |elements|
      invariant playing <==> exists j :: 0 <= j < i && Audible(elements[j])
    {
      var media := elements[i];
      if !media.paused && !media.muted {
        playing := true;
      }
    }
    info := MediaInfo(hasMedia, playing);
  }

  /** The `runtime.onMessage` listener of the content script. `query` is the element
      list, or `None` when computing the status threw. Only `getStatus` is answered: with
      the status, or with `{ hasMedia: false, playing: false, error }` on failure. */
  method RespondToMessage(action: string, query: Option<seq<Media>>) returns (reply: Option<StatusReply>)
    ensures action != StatusAction ==> reply == None
    ensures action == StatusAction && query.None? ==> reply == Some(StatusReply(false, false, true))
    ensures action == StatusAction && query.Some? ==>
      reply == Some(StatusReply(StatusOf(query.value).hasMedia, StatusOf(query.value).playing, false))
    ensures reply.Some? && reply.value.playing ==> reply.value.hasMedia
  {
    reply := None;
    if action == StatusAction {
      match query
      case None =>
        reply := Some(StatusReply(false, false, true));
      case Some(elements) =>
        var info := GetMediaInfo(elements);
        reply := Some(StatusReply(info.hasMedia, info.playing, false));
    }
  }

  /** What `runtime.sendMessage` does with a report: deliver it, reject its promise
      (nobody handles that rejection), or throw at once with the given error message
      (`None`: an error without a message). */
  datatype SendOutcome = Delivered | RejectedLater | Threw(message: Option<string>)

  /** `safeSendMessage` stops the reporter only for a thrown error whose message
      mentions the invalidated context. */
  predicate StopsReporter(outcome: SendOutcome) {
    outcome.Threw? && outcome.message.Some? && Contains(outcome.message.value, InvalidatedText)
  }

  /** The Chrome content script's periodic reporter: `intervalId` is live (`active`) until
      it is cleared. */
  class Reporter {
    var active: bool

    constructor ()
      ensures active
    {
      active := true;
    }

    /** One timer tick: compute the status (`None`: that threw, which ends the tick
        before anything is sent) and send it. Returns the report handed to
        `sendMessage`, if any. A stopped reporter does nothing and stays stopped. */
    method Tick(query: Option<seq<Media>>, outcome: SendOutcome) returns (sent: Option<MediaInfo>)
      modifies this
      ensures !old(active) ==> sent == None && !active
      ensures old(active) && query.None? ==> sent == None && active
      ensures old(active) && query.Some? ==>
        sent == Some(StatusOf(query.value)) && active == !StopsReporter(outcome)
    {
      sent := None;
      if !active || query.None? {
        return;
      }
      var info := GetMediaInfo(query.value);
      sent := Some(info);
      match outcome
      case Threw(message) =>
        if message.Some? && Contains(message.value, InvalidatedText) {
          // `clearInterval(intervalId)`
          active := false;
        }
      case _ =>
    }

    /** The page's `unload` listener clears the timer. */
    method Unload()
      modifies this
      ensures !active
    {
      active := false;
    }
  }
}
