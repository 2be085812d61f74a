/** The page controller of the bookshelf (`class App`): the scan session
    started by the scan button, and the search value kept in step with the
    `search` query parameter.

    The browser is reduced to inputs: the camera request completes with a
    granted stream or a denial, the detector is built or throws, the frames
    yield a sequence of detections, and the beep or the search update may
    throw. The handler's awaits are taken in order; a poll that never finds
    a barcode leaves the handler suspended, as the source does. */
module Bookshelf {
  import opened IsbnToken
  import opened BarcodePoller

  datatype Option<T> = None | Some(value: T)

  /** A media track of a camera stream. */
  class Track {
    var live: bool

    constructor ()
      ensures live
    {
      live := true;
    }

    method Stop()
      modifies this
      ensures !live
    {
      live := false;
    }
  }

  /** How `getUserMedia` completes: with the stream's tracks, or an error. */
  datatype CameraAccess = Granted(tracks: seq<Track>) | Denied(reason: string)

  /** Which call inside the read's `try`, if any, throws after a successful
      read: the beep, or the search update after it has written the field. */
  datatype SideEffects = AllSucceed | BeepThrows(reason: string) | SearchUpdateThrows(reason: string)

  const SearchParam := "search"
  const CameraErrorPrefix := "Failed to get access to the camera: "
  const ReadErrorPrefix := "Failed to read ISBN: "

  function TracksOf(access: CameraAccess): set<Track> {
    if access.Granted? then set t | t in access.tracks else {}
  }

  /** Some track of the stream is still live. */
  predicate AnyLive(tracks: seq<Track>)
    reads set t | t in tracks
  {
    exists i :: 0 <= i < |tracks| && tracks[i].live
  }

  /** `stream.getTracks().forEach((track) => track.stop())` */
  method StopAll(tracks: seq<Track>)
    modifies set t | t in tracks
    ensures !AnyLive(tracks)
  {
    for i := 0 to |tracks|
      invariant forall j :: 0 <= j < i ==> !tracks[j].live
    {
      tracks[i].Stop();
    }
  }

  class App {
    var scanDisabled: bool                  // #scanEl.disabled
    var videoVisible: bool                  // #videoEl.style.display is "block"
    var videoTracks: seq<Track>             // the tracks of #videoEl.srcObject
    var searchValue: string                 // #searchEl.value
    var query: map<string, string>          // the query parameters of the page URL
    var lastMessage: Option<string>         // the last message warned and shown in the popover
    const hasAudio: bool                    // #audioContext is not null
    var beeps: nat                          // beeps emitted so far

    /** The scan button is enabled, the video hidden and no track held live. */
    predicate Idle()
      reads this, set t | t in videoTracks
    {
      !scanDisabled && !videoVisible && !AnyLive(videoTracks)
    }

    /** Loading the page: a `search` parameter already in the URL is
        applied through the same routine as a scanned ISBN. */
    constructor (location: map<string, string>, audioAvailable: bool)
      ensures SearchParam in location ==> searchValue == location[SearchParam]
      ensures SearchParam !in location ==> searchValue == ""
      ensures query == location
      ensures Idle() && videoTracks == []
      ensures lastMessage == None && beeps == 0 && hasAudio == audioAvailable
    {
      scanDisabled, videoVisible, videoTracks := false, false, [];
      searchValue, query := "", location;
      lastMessage, beeps := None, 0;
      hasAudio := audioAvailable;
      new;
      if SearchParam in location {
        var value := location[SearchParam];
        var thrown := UpdateSearchValue(value, None);
        assert location[SearchParam := value] == location;
      }
    }

    /** `#updateSearchValue`: the field takes the value, then the URL's
        `search` parameter is set to it; when the filtering or the history
        update throws, the field is already written and the URL is not. */
    method UpdateSearchValue(value: string, failure: Option<string>) returns (thrown: Option<string>)
      modifies this`searchValue, this`query
      ensures searchValue == value
      ensures thrown == failure
      ensures query == if thrown.None? then old(query)[SearchParam := value] else old(query)
    {
      searchValue := value;
      if failure.Some? {
        return failure;
      }
      query := query[SearchParam := value];
      thrown := None;
    }

    /** `#emitBeep`: nothing without an audio context; otherwise one beep,
        unless building the oscillator throws. */
    method EmitBeep(failure: Option<string>) returns (thrown: Option<string>)
      modifies this`beeps
      ensures !hasAudio ==> thrown == None && beeps == old(beeps)
      ensures hasAudio && failure.Some? ==> thrown == failure && beeps == old(beeps)
      ensures hasAudio && failure.None? ==> thrown == None && beeps == old(beeps) + 1
    {
      if !hasAudio {
        return None;
      }
      if failure.Some? {
        return failure;
      }
      beeps := beeps + 1;
      thrown := None;
    }

    /** `#showPopoverMessage` */
    method ShowMessage(message: string)
      modifies this`lastMessage
      ensures lastMessage == Some(message)
    {
      lastMessage := Some(message);
    }

    /** The handler up to the first await's outcome and the video start: a
        denial is reported and ends the handler with nothing else touched; a
        grant disables the button, then shows the video bound to the stream. */
    method AcquireCamera(access: CameraAccess) returns (granted: bool)
      modifies this
      ensures granted == access.Granted?
      ensures access.Denied? ==> lastMessage == Some(CameraErrorPrefix + access.reason)
      ensures access.Denied? ==> scanDisabled == old(scanDisabled) && videoVisible == old(videoVisible)
                                 && videoTracks == old(videoTracks)
      ensures access.Granted? ==> scanDisabled && videoVisible && videoTracks == access.tracks
                                  && lastMessage == old(lastMessage)
      ensures searchValue == old(searchValue) && query == old(query) && beeps == old(beeps)
    {
      match access {
        case Denied(reason) =>
          ShowMessage(CameraErrorPrefix + reason);
          return false;
        case Granted(tracks) =>
          scanDisabled := true;
          videoVisible := true;
          videoTracks := tracks;
          return true;
      }
    }

    /** The handler after `#readISBN` settles: on a read, the beep and then
        the search update; a rejection, or a throw from either of those, is
        reported as a read failure. Then, on every path, the tracks are
        stopped, the video hidden and the button re-enabled. */
    method FinishScan(tracks: seq<Track>, outcome: Promise, effects: SideEffects)
      requires !outcome.Pending?
      modifies this, set t | t in tracks
      ensures !AnyLive(tracks) && !videoVisible && !scanDisabled
      ensures videoTracks == old(videoTracks)
      ensures outcome.Rejected? ==>
                lastMessage == Some(ReadErrorPrefix + outcome.reason)
                && searchValue == old(searchValue) && query == old(query) && beeps == old(beeps)
      ensures outcome.Fulfilled? && hasAudio && effects.BeepThrows? ==>
                lastMessage == Some(ReadErrorPrefix + effects.reason)
                && searchValue == old(searchValue) && query == old(query) && beeps == old(beeps)
      ensures outcome.Fulfilled? && effects.SearchUpdateThrows? ==>
                lastMessage == Some(ReadErrorPrefix + effects.reason)
                && searchValue == outcome.isbn && query == old(query)
                && beeps == old(beeps) + (if hasAudio then 1 else 0)
      ensures outcome.Fulfilled? && (effects.AllSucceed? || (effects.BeepThrows? && !hasAudio)) ==>
                lastMessage == old(lastMessage)
                && searchValue == outcome.isbn && query == old(query)[SearchParam := outcome.isbn]
                && beeps == old(beeps) + (if hasAudio then 1 else 0)
    {
      var failure: Option<string> := None;
      match outcome {
        case Rejected(reason) =>
          failure := Some(reason);
        case Fulfilled(isbn) =>
          failure := EmitBeep(if effects.BeepThrows? then Some(effects.reason) else None);
          if failure.None? {
            failure := UpdateSearchValue(isbn, if effects.SearchUpdateThrows? then Some(effects.reason) else None);
          }
      }
      if failure.Some? {
        ShowMessage(ReadErrorPrefix + failure.value);
      }
      StopAll(tracks);
      videoVisible := false;
      scanDisabled := false;
    }

    /** `#onScanButtonClick`, with the camera's answer, the detector's
        construction and the detections of successive frames as inputs.
        Nothing stops a second click while the camera request is open: the
        button is disabled only once access is granted. */
    method OnScanButtonClick(access: CameraAccess, init: DetectorInit, frames: seq<Detection>,
                             effects: SideEffects)
      modifies this, TracksOf(access)
      ensures access.Denied? ==>
                lastMessage == Some(CameraErrorPrefix + access.reason)
                && scanDisabled == old(scanDisabled) && videoVisible == old(videoVisible)
                && videoTracks == old(videoTracks) && searchValue == old(searchValue)
                && query == old(query) && beeps == old(beeps)
      ensures access.Denied? && old(Idle()) ==> Idle()
      ensures access.Granted? ==> videoTracks == access.tracks
      ensures access.Granted? && Poll(init, frames).promise.Pending? ==>
                scanDisabled && videoVisible && lastMessage == old(lastMessage)
                && searchValue == old(searchValue) && query == old(query) && beeps == old(beeps)
                && forall t :: t in access.tracks ==> t.live == old(t.live)
      ensures access.Granted? && !Poll(init, frames).promise.Pending? ==> Idle()
      ensures access.Granted? && Poll(init, frames).promise.Rejected? ==>
                lastMessage == Some(ReadErrorPrefix + Poll(init, frames).promise.reason)
                && searchValue == old(searchValue) && query == old(query) && beeps == old(beeps)
      ensures access.Granted? && Poll(init, frames).promise.Fulfilled? && effects.AllSucceed? ==>
                var isbn := Poll(init, frames).promise.isbn;
                lastMessage == old(lastMessage) && searchValue == isbn
                && query == old(query)[SearchParam := isbn]
                && beeps == old(beeps) + (if hasAudio then 1 else 0)
      ensures access.Granted? && Poll(init, frames).promise.Fulfilled? && hasAudio && effects.BeepThrows? ==>
                lastMessage == Some(ReadErrorPrefix + effects.reason)
                && searchValue == old(searchValue) && query == old(query) && beeps == old(beeps)
      ensures access.Granted? && Poll(init, frames).promise.Fulfilled? && !hasAudio && effects.BeepThrows? ==>
                var isbn := Poll(init, frames).promise.isbn;
                lastMessage == old(lastMessage) && searchValue == isbn
                && query == old(query)[SearchParam := isbn] && beeps == old(beeps)
      ensures access.Granted? && Poll(init, frames).promise.Fulfilled? && effects.SearchUpdateThrows? ==>
                lastMessage == Some(ReadErrorPrefix + effects.reason)
                && searchValue == Poll(init, frames).promise.isbn && query == old(query)
                && beeps == old(beeps) + (if hasAudio then 1 else 0)
    {
      var granted := AcquireCamera(access);
      if !granted {
        return;
      }
      var tracks := access.tracks;
      var outcome, detectCalls := ReadIsbn(init, frames);
      if outcome.Pending? {
        // The interval keeps firing and the handler stays suspended.
        return;
      }
      FinishScan(tracks, outcome, effects);
    }
  }

  /** A scan from click to cleanup: three empty frames, then a barcode with
      an add-on after a space. */
  method SuccessfulScanScenario() {
    var app := new App(map[], true);
    var track := new Track();
    var frames := [Detected([]), Detected([]), Detected([]), Detected(["9780316769488 extra"])];
    FourthFrameScenario();
    app.OnScanButtonClick(Granted([track]), Constructed, frames, AllSucceed);
    assert app.searchValue == "9780316769488";
    assert app.query == map[SearchParam := "9780316769488"];
    assert app.beeps == 1 && app.lastMessage == None;
    assert app.videoTracks[0] == track;
    assert !track.live && !app.scanDisabled && !app.videoVisible;
  }

  /** A click whose camera request is refused. */
  method DeniedScanScenario() {
    var app := new App(map[SearchParam := "tolkien"], false);
    app.OnScanButtonClick(Denied("Permission denied"), Constructed, [], AllSucceed);
    assert CameraErrorPrefix + "Permission denied" == "Failed to get access to the camera: Permission denied";
    assert app.lastMessage == Some("Failed to get access to the camera: Permission denied");
    assert !app.scanDisabled && !app.videoVisible && app.videoTracks == [];
    assert app.searchValue == "tolkien";
  }
}
