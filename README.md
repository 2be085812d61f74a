# Bookshelf barcode scan session, modelled in Dafny

The bookshelf page lets a user search a book list and fill the search field
by scanning an ISBN barcode with the device camera. This project models the
part of `app.js` with real control flow:

- `IsbnToken` (isbn_token.dfy): the ISBN token `rawValue.split(" ")[0]`,
  with JavaScript's `split(" ")` written out and proved to lose nothing
  (joining the pieces gives the payload back).
- `BarcodePoller` (barcode_poller.dfy): `#readISBN`. The promise, the
  interval and the overlapping async `detect` calls become a state
  (`PollState`) changed by two events: the interval fires, or an earlier
  `detect` call completes. `Step`/`Run` give the meaning of any
  interleaving. The `Poller` class holds the same state in fields and its
  methods are proved against `Step`. `ReadIsbn` is the polling loop over
  non-overlapping ticks, proved to settle as `PollOutcome` says.
- `Bookshelf` (app.dfy): the `App` class with the fields the scan session
  touches. These are the scan button's `disabled`, the video's visibility
  and tracks, the search field, the URL query parameters, the last message
  and a beep counter. It covers `#onScanButtonClick` (split at its awaits
  into `AcquireCamera` and `FinishScan`), `#updateSearchValue`, `#emitBeep`,
  `#showPopoverMessage` and constructor lines 17-21.

Browser services are inputs:

- `getUserMedia` completes as `Granted(tracks)` or `Denied(reason)`.
- `new BarcodeDetector` is `Constructed` or `ConstructorThrew(reason)`.
- Each frame's `detect` is `Detected(rawValues)` or `Threw(reason)`.
- A throw from the beep or from the search update is a `SideEffects` value.

Where the code differs from what a reader would expect, the model follows
the code:

- The scan button is disabled only after camera access is granted
  (app.js:68-69). Nothing stops a second click while the camera request is
  open, and the model adds no guard.
- A `detect` call that throws (app.js:113) does not reject the promise. The
  `try/catch` at app.js:108/121 covers only the detector's construction.
  The throw rejects the interval callback's own promise, so polling goes
  on. In the model a `Threw` detection is a no-op tick.
- The token ends at the first space character `' '` only, not at any
  whitespace. No EAN-13 check digit is validated.
- Nothing times out. If no frame yields a barcode, the promise stays
  pending and the handler never reaches its cleanup. In the model, the
  button stays disabled and the video visible.
- `srcObject` is never unbound after a scan. `videoTracks` keeps the
  stopped tracks.
- Promise settlement is one-shot in JavaScript. A late `detect` completion
  after the first hit calls `resolve` again to no effect (`Settle`,
  `SettledIsFinal`). The source needs no flag of its own for this.

## Model

| member | source | states |
|---|---|---|
| IsbnToken.SplitOnSpace | app.js:119 | `split(" ")` always yields at least one piece |
| IsbnToken.JoinSplit | app.js:119 | joining the pieces of `split(" ")` with single spaces gives back the payload: splitting loses nothing |
| IsbnToken.PiecesHaveNoSpace | app.js:119 | no piece of `split(" ")` contains a space |
| IsbnToken.FirstPieceIsPrefix | app.js:119 | the first piece is a prefix of the payload that holds no space and ends at the payload's end or just before a space |
| IsbnToken.Token | app.js:119 | the token `rawValue.split(" ")[0]` is a space-free prefix of the payload that stops at its end or at the first space |
| IsbnToken.TokenCharacterization | app.js:119 | the token is exactly the one prefix with those properties, in both directions |
| IsbnToken.TokenOfSpacelessPayload | app.js:119 | a payload without a space is its own token |
| IsbnToken.TokenIdempotent | app.js:119 | extracting the token of a token changes nothing |
| IsbnToken.TokenDropsSuffix | app.js:119 | a space-free code followed by a space and any suffix yields the code |
| IsbnToken.TokenExamples | app.js:119 | "9780316769488 extra" gives "9780316769488"; "9780143127741" is unchanged; a tab does not split |
| BarcodePoller.RunKeepsConsistent | app.js:112-120 | under any interleaving of firings and completions, the interval runs exactly while the promise is pending |
| BarcodePoller.SettledIsFinal | app.js:118-119 | once settled, no later event, including a straggling hit, changes the promise |
| BarcodePoller.NoPollingAfterClear | app.js:118 | after `clearInterval` no further `detect` call starts and the interval is never set again |
| BarcodePoller.MissesChangeNothing | app.js:113-116 | completions with zero barcodes or a throw neither settle the promise nor stop the interval, however they interleave |
| BarcodePoller.FirstHit | app.js:113-118 | the index of the first detection with at least one barcode: none before it has one, and it has one unless it is past the end |
| BarcodePoller.PollWithoutHit | app.js:112-116 | ticks without a barcode keep the interval running and the promise pending, one `detect` call per tick |
| BarcodePoller.PollAfterStop | app.js:118 | once the interval is cleared with nothing in flight, later ticks leave the poller as it was |
| BarcodePoller.PollOutcome | app.js:106-126 | a detector that throws on construction rejects with that error and polls nothing; otherwise the first hit resolves with the token of its first barcode after exactly that many `detect` calls; with no hit the promise stays pending |
| BarcodePoller.Poller.constructor | app.js:107-111 | the executor builds the detector, then sets the interval; a constructor throw rejects with no interval: the state equals `Start` (the value-level executor) |
| BarcodePoller.Poller.Fire | app.js:112-113 | a firing starts one `detect` call only while the interval is set, and keeps the interval and the promise in step: the new state equals `Step` on a firing, the value-level interval callback that `Run` folds over events |
| BarcodePoller.Poller.Complete | app.js:113-119 | a completion with no barcode returns early; a hit clears the interval and resolves once with the first barcode's token: the new state equals `Step` on a completion, whose one-shot resolve is `Settle` |
| BarcodePoller.ReadIsbn | app.js:106-126 | the polling loop settles as `PollOutcome` says: rejected on a constructor throw, else resolved with the first hit's token after exactly first-hit + 1 `detect` calls, else pending |
| BarcodePoller.FourthFrameScenario | app.js:112-120 | three empty frames then "9780316769488 extra" resolve with "9780316769488" after four `detect` calls and the interval cleared |
| Bookshelf.StopAll | app.js:85 | after the `forEach`, no track of the stream is live |
| Bookshelf.App.constructor | app.js:17-21 | a `search` parameter in the page URL becomes the search value and the URL is unchanged; without one the field stays empty; the scan button starts enabled, the video hidden |
| Bookshelf.App.UpdateSearchValue | app.js:128-135 | the field equals the value and the `search` parameter is set to it, other parameters kept; a throw after the field is written is returned and leaves the URL unchanged |
| Bookshelf.App.EmitBeep | app.js:137-153 | no audio context: no beep and no throw; otherwise exactly one beep unless building it throws |
| Bookshelf.App.ShowMessage | app.js:155-164 | the message becomes the last message surfaced |
| Bookshelf.App.AcquireCamera | app.js:52-74 | a denial records "Failed to get access to the camera: " + reason and touches neither button nor video; a grant disables the button, shows the video and binds the stream |
| Bookshelf.App.FinishScan | app.js:76-88 | on a read: beep, then the search value and `search` parameter become the ISBN; a rejection or a throw from the beep or the update records "Failed to read ISBN: " + reason; on every path all tracks stop, the video hides and the button is re-enabled |
| Bookshelf.App.OnScanButtonClick | app.js:52-89 | a denial leaves button, video, tracks and search as they were; a grant with a pending poll leaves the session scanning; a settled poll always ends idle, with the search value and `search` parameter set to the ISBN on success, and the read-failure message on a rejection or on a throw from the beep (with an audio context) or the search update |

## Left out

- Camera acquisition (`getUserMedia` and its constraints), barcode decoding
  and `video.play()` (app.js:55-60, 73-74, 109, 113) are browser services.
  They appear only as input outcomes.
- The Web Audio parameters of the beep (gain 0.1, a 500 Hz square wave,
  0.1 s; app.js:142-152) are floating-point audio settings. The model
  counts beeps.
- List.js filtering (app.js:130) is a library outside this model, and
  `history.pushState` (app.js:132-134) is a browser history side effect.
  The URL is modelled as a map of query parameters.
- Popover rendering and `console.warn` (app.js:155-164) are UI. The model
  records the last message, whether or not popovers are supported.
- Real timing of the 500 ms interval (app.js:120) is not modelled.
  `ReadIsbn` and `OnScanButtonClick` take one completed detection per tick
  in order. The overlap of in-flight calls is modelled only at the value
  level, by `Step`/`Run` and the lemmas on them.
- The copy-to-clipboard handler (app.js:91-104) is a foreign clipboard
  write plus a timed label swap.
- Feature gating in the constructor (app.js:23-49) checks capabilities of
  browser globals. The model assumes the scan button was wired up.
- Bookshelf.App.OnScanButtonClick: models one click at a time. Two clicks
  whose camera requests overlap, which the source allows, are not
  interleaved.
- Bookshelf.App.constructor: takes the search field as empty, the scan
  button as enabled and the video as hidden before the script runs; app.js
  does not set these, the page's HTML does, and the HTML is not part of
  this model.
