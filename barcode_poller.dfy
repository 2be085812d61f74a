/** The barcode poller (`#readISBN`): a promise that builds an EAN-13
    detector and, every interval, asks it to detect barcodes in the video
    frame, resolving with the ISBN token of the first barcode found.

    Timing is reduced to two kinds of events in the order the event loop
    delivers them: the interval fires (which starts one `detect` call), and
    a `detect` call that was started earlier completes. Several calls may be
    in flight at once, so a completion may arrive after the interval was
    cleared and the promise settled. */
module BarcodePoller {
  import opened IsbnToken

  /** What a `detector.detect(video)` call completes with: the raw values of
      the barcodes found (possibly none), or an exception. */
  datatype Detection = Detected(rawValues: seq<string>) | Threw(reason: string)

  /** What `new BarcodeDetector({ formats: ["ean_13"] })` does. */
  datatype DetectorInit = Constructed | ConstructorThrew(reason: string)

  /** The state of the promise that `#readISBN` returns. */
  datatype Promise = Pending | Fulfilled(isbn: string) | Rejected(reason: string)

  datatype Event = IntervalFired | DetectCompleted(detection: Detection)

  /** running: the interval is set and not cleared; inFlight: detect calls
      started and not yet completed; detectCalls: detect calls started so far. */
  datatype PollState = PollState(running: bool, inFlight: nat, detectCalls: nat, promise: Promise)

  /** A detection that passes the `barcodes.length <= 0` guard. */
  predicate Hit(d: Detection) {
    d.Detected? && |d.rawValues| > 0
  }

  /** `resolve`/`reject` of a promise: only the first call has an effect. */
  function Settle(p: Promise, v: Promise): Promise {
    if p.Pending? then v else p
  }

  /** Running the promise executor: the detector is built first, and only
      when that succeeds is the interval set; a throw rejects at once. */
  function Start(init: DetectorInit): PollState {
    match init
    case Constructed => PollState(true, 0, 0, Pending)
    case ConstructorThrew(reason) => PollState(false, 0, 0, Rejected(reason))
  }

  /** One event. A cleared interval never fires again. A completion with no
      barcode returns early; a `detect` that throws rejects only the async
      callback's own promise, so it too leaves the poller as it was. A hit
      clears the interval and then resolves with the first barcode's token. */
  function Step(s: PollState, e: Event): PollState {
    match e
    case IntervalFired =>
      if s.running then s.(inFlight := s.inFlight + 1, detectCalls := s.detectCalls + 1) else s
    case DetectCompleted(d) =>
      if s.inFlight == 0 then s
      else if !Hit(d) then s.(inFlight := s.inFlight - 1)
      else s.(inFlight := s.inFlight - 1, running := false,
              promise := Settle(s.promise, Fulfilled(Token(d.rawValues[0]))))
  }

  /** The state after a sequence of events, in delivery order. */
  function Run(s: PollState, es: seq<Event>): PollState
    decreases |es|
  {
    if es == [] then s else Step(Run(s, es[..|es| - 1]), es[|es| - 1])
  }

  /** The interval is active exactly while the promise is pending. */
  ghost predicate Consistent(s: PollState) {
    s.running <==> s.promise.Pending?
  }

  /** Every interleaving of firings and completions keeps the interval
      running exactly while the promise is pending. */
  lemma {:induction false} RunKeepsConsistent(s: PollState, es: seq<Event>)
    requires Consistent(s)
    ensures Consistent(Run(s, es))
    decreases |es|
  {
    if es != [] {
      RunKeepsConsistent(s, es[..|es| - 1]);
    }
  }

  /** Settlement is one-shot: once the promise is fulfilled or rejected, no
      later event, including a straggling detection that finds a barcode,
      changes it. */
  lemma {:induction false} SettledIsFinal(s: PollState, es: seq<Event>)
    requires !s.promise.Pending?
    ensures Run(s, es).promise == s.promise
    decreases |es|
  {
    if es != [] {
      SettledIsFinal(s, es[..|es| - 1]);
    }
  }

  /** Once the interval is cleared no further `detect` call is started,
      and the interval is never set again. */
  lemma {:induction false} NoPollingAfterClear(s: PollState, es: seq<Event>)
    requires !s.running
    ensures !Run(s, es).running
    ensures Run(s, es).detectCalls == s.detectCalls
    ensures Run(s, es).inFlight <= s.inFlight
    decreases |es|
  {
    if es != [] {
      NoPollingAfterClear(s, es[..|es| - 1]);
    }
  }

  /** Completions that find nothing, or throw, neither settle the promise
      nor stop the interval, however they interleave with firings. */
  lemma {:induction false} MissesChangeNothing(s: PollState, es: seq<Event>)
    requires forall i :: 0 <= i < |es| ==> !(es[i].DetectCompleted? && Hit(es[i].detection))
    ensures Run(s, es).running == s.running
    ensures Run(s, es).promise == s.promise
    decreases |es|
  {
    if es != [] {
      MissesChangeNothing(s, es[..|es| - 1]);
    }
  }

  /** A sequence of non-overlapping ticks: the interval fires and its
      `detect` call completes before the next firing. */
  function Ticks(ds: seq<Detection>): seq<Event>
    decreases |ds|
  {
    if ds == [] then [] else Ticks(ds[..|ds| - 1]) + [IntervalFired, DetectCompleted(ds[|ds| - 1])]
  }

  /** The poller after a sequence of non-overlapping ticks. */
  function Poll(init: DetectorInit, ds: seq<Detection>): PollState {
    Run(Start(init), Ticks(ds))
  }

  lemma RunTick(s: PollState, es: seq<Event>, d: Detection)
    ensures Run(s, es + [IntervalFired, DetectCompleted(d)])
            == Step(Step(Run(s, es), IntervalFired), DetectCompleted(d))
  {
    var fired := es + [IntervalFired];
    assert (es + [IntervalFired, DetectCompleted(d)])[..|fired|] == fired;
    assert fired[..|es|] == es;
  }

  ghost predicate NoHit(ds: seq<Detection>) {
    forall j :: 0 <= j < |ds| ==> !Hit(ds[j])
  }

  /** The index of the first detection that finds a barcode, or |ds|. */
  function FirstHit(ds: seq<Detection>): (k: nat)
    ensures k <= |ds|
    ensures NoHit(ds[..k])
    ensures k < |ds| ==> Hit(ds[k])
    decreases |ds|
  {
    if ds == [] || Hit(ds[0]) then 0
    else
      var k := 1 + FirstHit(ds[1..]);
      assert forall j :: 1 <= j < k ==> ds[..k][j] == ds[1..][..k - 1][j - 1];
      k
  }

  /** Ticks without a hit leave the interval running and the promise
      pending, one `detect` call per tick. */
  lemma {:induction false} PollWithoutHit(ds: seq<Detection>)
    requires NoHit(ds)
    ensures Poll(Constructed, ds) == PollState(true, 0, |ds|, Pending)
    decreases |ds|
  {
    if ds != [] {
      var prefix := ds[..|ds| - 1];
      assert NoHit(prefix) by {
        assert forall j :: 0 <= j < |prefix| ==> prefix[j] == ds[j];
      }
      PollWithoutHit(prefix);
      RunTick(Start(Constructed), Ticks(prefix), ds[|ds| - 1]);
    }
  }

  /** After the interval is cleared with nothing in flight, the ticks that
      would have followed do not happen. */
  lemma {:induction false} PollAfterStop(init: DetectorInit, ds: seq<Detection>, n: nat)
    requires n <= |ds|
    requires !Poll(init, ds[..n]).running && Poll(init, ds[..n]).inFlight == 0
    ensures Poll(init, ds) == Poll(init, ds[..n])
    decreases |ds|
  {
    if n < |ds| {
      var prefix := ds[..|ds| - 1];
      assert prefix[..n] == ds[..n];
      PollAfterStop(init, prefix, n);
      RunTick(Start(init), Ticks(prefix), ds[|ds| - 1]);
    } else {
      assert ds[..n] == ds;
    }
  }

  /** What `#readISBN` settles with, for any sequence of non-overlapping
      ticks: a detector that cannot be built rejects with its error and
      polls nothing; otherwise the first hit resolves the promise with the
      token of its first barcode and ends the polling, and with no hit the
      promise stays pending while the interval keeps firing. */
  lemma PollOutcome(init: DetectorInit, ds: seq<Detection>)
    ensures init.ConstructorThrew? ==> Poll(init, ds) == PollState(false, 0, 0, Rejected(init.reason))
    ensures init.Constructed? && FirstHit(ds) == |ds| ==>
              Poll(init, ds) == PollState(true, 0, |ds|, Pending)
    ensures init.Constructed? && FirstHit(ds) < |ds| ==>
              Poll(init, ds) == PollState(false, 0, FirstHit(ds) + 1,
                                          Fulfilled(Token(ds[FirstHit(ds)].rawValues[0])))
  {
    var k := FirstHit(ds);
    if init.ConstructorThrew? {
      assert ds[..0] == [];
      PollAfterStop(init, ds, 0);
    } else if k == |ds| {
      assert ds[..k] == ds;
      PollWithoutHit(ds);
    } else {
      PollWithoutHit(ds[..k]);
      assert ds[..k + 1][..k] == ds[..k];
      RunTick(Start(init), Ticks(ds[..k]), ds[k]);
      PollAfterStop(init, ds, k + 1);
    }
  }

  /** The poller object: the interval handle and the promise it settles. */
  class Poller {
    var running: bool
    var inFlight: nat
    var detectCalls: nat
    var promise: Promise

    function State(): PollState
      reads this
    {
      PollState(running, inFlight, detectCalls, promise)
    }

    ghost predicate Valid()
      reads this
    {
      Consistent(State())
    }

    /** The promise executor: build the detector, then set the interval. */
    constructor (init: DetectorInit)
      ensures Valid()
      ensures State() == Start(init)
    {
      match init {
        case Constructed =>
          running, promise := true, Pending;
        case ConstructorThrew(reason) =>
          running, promise := false, Rejected(reason);
      }
      inFlight, detectCalls := 0, 0;
    }

    /** The interval fires: its callback calls `detector.detect`. */
    method Fire()
      requires Valid()
      modifies this
      ensures Valid()
      ensures State() == Step(old(State()), IntervalFired)
    {
      if running {
        inFlight := inFlight + 1;
        detectCalls := detectCalls + 1;
      }
    }

    /** A `detect` call started by an earlier firing completes. */
    method Complete(d: Detection)
      requires Valid()
      modifies this
      ensures Valid()
      ensures State() == Step(old(State()), DetectCompleted(d))
    {
      if inFlight > 0 {
        inFlight := inFlight - 1;
        if Hit(d) {
          running := false;
          if promise.Pending? {
            promise := Fulfilled(Token(d.rawValues[0]));
          }
        }
      }
    }
  }

  /** `#readISBN` over non-overlapping ticks, each with the given detection:
      the interval fires until it is cleared or the detections run out.
      Returns the promise's state and how many `detect` calls were made. */
  method ReadIsbn(init: DetectorInit, ds: seq<Detection>) returns (promise: Promise, detectCalls: nat)
    ensures promise == Poll(init, ds).promise && detectCalls == Poll(init, ds).detectCalls
    ensures init.ConstructorThrew? ==> promise == Rejected(init.reason) && detectCalls == 0
    ensures init.Constructed? && FirstHit(ds) == |ds| ==> promise == Pending && detectCalls == |ds|
    ensures init.Constructed? && FirstHit(ds) < |ds| ==>
              promise == Fulfilled(Token(ds[FirstHit(ds)].rawValues[0])) && detectCalls == FirstHit(ds) + 1
  {
    var poller := new Poller(init);
    var i := 0;
    while i < |ds| && poller.running
      invariant 0 <= i <= |ds|
      invariant poller.Valid()
      invariant poller.State() == Poll(init, ds[..i])
      invariant poller.inFlight == 0
    {
      assert ds[..i + 1][..i] == ds[..i];
      RunTick(Start(init), Ticks(ds[..i]), ds[i]);
      poller.Fire();
      poller.Complete(ds[i]);
      i := i + 1;
    }
    if poller.running {
      assert ds[..i] == ds;
    } else {
      PollAfterStop(init, ds, i);
    }
    PollOutcome(init, ds);
    promise, detectCalls := poller.promise, poller.detectCalls;
  }

  /** Three empty frames, then a barcode whose payload carries an add-on
      after a space. */
  lemma FourthFrameScenario()
    ensures Poll(Constructed, [Detected([]), Detected([]), Detected([]), Detected(["9780316769488 extra"])])
            == PollState(false, 0, 4, Fulfilled("9780316769488"))
  {
    var ds := [Detected([]), Detected([]), Detected([]), Detected(["9780316769488 extra"])];
    assert FirstHit(ds) == 3 by {
      assert !Hit(ds[0]) && !Hit(ds[1]) && !Hit(ds[2]) && Hit(ds[3]);
    }
    PollOutcome(Constructed, ds);
    TokenExamples();
  }
}
