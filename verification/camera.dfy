/** The smoothing state of the camera view model and the steps that change
    it: switching translation on or off, a captured frame, and the update a
    classified frame triggers. Each step is one atomic transition that also
    says what, if anything, is handed to the display callback. */
module CameraViewModel {
  import opened Predictions
  import opened PredictionBuffer
  import opened Smoothing

  /** The prediction window and the on/off gate. */
  datatype Session = Session(buffer: Buffer, translating: bool)

  /** Why a captured frame yields no classification: the sample carries no
      image, the model failed to load, the resized image could not be turned
      back into a pixel buffer, the request failed, or it had no results. */
  datatype DropReason = NoPixelBuffer | ModelNotLoaded | ConversionFailed | InferenceFailed | NoResults

  /** What the capture and inference path makes of one camera frame: the
      classifier's top result, or nothing. The classifier itself is opaque, so
      its result is an arbitrary input. */
  datatype FrameOutcome = Classified(top: Prediction) | Dropped(reason: DropReason)

  /** A transition: the next state and the value passed to the display
      callback, if any. */
  datatype Step = Step(session: Session, shown: Option<Prediction>)

  /** The state of a freshly created view model. */
  const Initial: Session := Session([], false)

  /** The window never exceeds its capacity. */
  predicate Valid(s: Session) {
    |s.buffer| <= MaxBufferSize
  }

  /** Switching translation on or off. Only the flag changes: the window is
      kept as it is either way. Switching off shows the placeholder; switching
      on shows nothing until the next frame is classified. */
  function ToggleTranslation(s: Session, on: bool): (r: Step)
    ensures r.session.buffer == s.buffer
    ensures r.session.translating == on
    ensures !on <==> r.shown == Some(EmptyPrediction)
    ensures on <==> r.shown == None
  {
    Step(Session(s.buffer, on), if on then None else Some(EmptyPrediction))
  }

  /** A classified frame: push it into the window and show the smoothed
      prediction of the new window. The gate is not consulted here; frames
      only reach this step through `CaptureOutput`. */
  function UpdatePrediction(s: Session, p: Prediction): (r: Step)
    ensures r.session.translating == s.translating
    ensures Valid(s) ==> Valid(r.session)
    ensures |r.session.buffer| > 0 && r.session.buffer[|r.session.buffer| - 1] == p
    ensures r.session.buffer == Push(s.buffer, p)
    ensures r.shown.Some? && IsSmoothed(r.session.buffer, r.shown.value)
  {
    var buffer := Push(s.buffer, p);
    Step(Session(buffer, s.translating), Some(Smooth(buffer)))
  }

  /** A captured camera frame. While translation is off the frame is ignored
      before any classification happens; a frame the pipeline drops changes
      nothing either. */
  function CaptureOutput(s: Session, frame: FrameOutcome): (r: Step)
    ensures !s.translating ==> r == Step(s, None)
    ensures frame.Dropped? ==> r == Step(s, None)
    ensures s.translating && frame.Classified? ==>
      && r.session == Session(Push(s.buffer, frame.top), true)
      && r.shown.Some? && IsSmoothed(r.session.buffer, r.shown.value)
    ensures r.shown.Some? <==> s.translating && frame.Classified?
  {
    if !s.translating then Step(s, None)
    else match frame
      case Dropped(_) => Step(s, None)
      case Classified(p) => UpdatePrediction(s, p)
  }

  /** What happens to the view model: a button press or a camera frame. */
  datatype Event = Toggle(on: bool) | Frame(outcome: FrameOutcome)

  function Handle(s: Session, ev: Event): Step {
    match ev
    case Toggle(on) => ToggleTranslation(s, on)
    case Frame(outcome) => CaptureOutput(s, outcome)
  }

  /** The state after a sequence of events, oldest first. */
  function Run(s: Session, evs: seq<Event>): Session
    decreases |evs|
  {
    if |evs| == 0 then s else Run(Handle(s, evs[0]).session, evs[1..])
  }

  /** The predictions that get into the window: those of frames classified
      while translation is on, where `on` is the gate before the first event. */
  function Accepted(on: bool, evs: seq<Event>): seq<Prediction>
    decreases |evs|
  {
    if |evs| == 0 then []
    else match evs[0]
      case Toggle(o) => Accepted(o, evs[1..])
      case Frame(Classified(p)) => (if on then [p] else []) + Accepted(on, evs[1..])
      case Frame(Dropped(_)) => Accepted(on, evs[1..])
  }

  /** The gate after a sequence of events: the last toggle, if any. */
  function LastToggle(on: bool, evs: seq<Event>): bool
    decreases |evs|
  {
    if |evs| == 0 then on
    else match evs[0]
      case Toggle(o) => LastToggle(o, evs[1..])
      case Frame(_) => LastToggle(on, evs[1..])
  }

  /** Running events pushes exactly the accepted predictions, in order, and
      leaves the gate as the last toggle set it. */
  lemma {:induction false} RunPushesAccepted(s: Session, evs: seq<Event>)
    ensures Run(s, evs).buffer == PushAll(s.buffer, Accepted(s.translating, evs))
    ensures Run(s, evs).translating == LastToggle(s.translating, evs)
    decreases |evs|
  {
    if |evs| > 0 {
      var next := Handle(s, evs[0]).session;
      RunPushesAccepted(next, evs[1..]);
      match evs[0]
      case Toggle(o) =>
      case Frame(Dropped(_)) =>
      case Frame(Classified(p)) =>
        if s.translating {
          assert Accepted(s.translating, evs) == [p] + Accepted(s.translating, evs[1..]);
          assert ([p] + Accepted(s.translating, evs[1..]))[1..] == Accepted(s.translating, evs[1..]);
        } else {
          assert [] + Accepted(s.translating, evs[1..]) == Accepted(s.translating, evs[1..]);
        }
    }
  }

  /** The window always holds the last (at most ten) accepted predictions,
      oldest first, preceded by what is left of the starting window; so it
      never exceeds its capacity. */
  lemma WindowOfRun(s: Session, evs: seq<Event>)
    requires Valid(s)
    ensures Run(s, evs).buffer == Recent(s.buffer + Accepted(s.translating, evs))
    ensures Valid(Run(s, evs))
  {
    RunPushesAccepted(s, evs);
    PushAllIsRecent(s.buffer, Accepted(s.translating, evs));
  }

  /** From a fresh view model, the window is the last ten predictions of
      frames classified while translation was on. */
  lemma WindowFromStart(evs: seq<Event>)
    ensures Valid(Run(Initial, evs))
    ensures Run(Initial, evs).buffer == Recent(Accepted(false, evs))
  {
    WindowOfRun(Initial, evs);
    assert Initial.buffer + Accepted(false, evs) == Accepted(false, evs);
  }

  /** While translation is off, any number of captured frames changes
      nothing. */
  lemma {:induction false} FramesIgnoredWhileOff(s: Session, frames: seq<FrameOutcome>)
    requires !s.translating
    ensures Run(s, seq(|frames|, i requires 0 <= i < |frames| => Frame(frames[i]))) == s
    decreases |frames|
  {
    var evs := seq(|frames|, i requires 0 <= i < |frames| => Frame(frames[i]));
    if |frames| > 0 {
      var rest := frames[1..];
      FramesIgnoredWhileOff(s, rest);
      assert evs[1..] == seq(|rest|, i requires 0 <= i < |rest| => Frame(rest[i]));
      assert evs[0] == Frame(frames[0]);
      assert Handle(s, evs[0]).session == s;
    }
  }

  /** No reset: switching translation off and on again keeps the old window,
      so the first frame of the new session is smoothed together with the
      last frames of the previous one. */
  lemma RestartKeepsWindow(s: Session, p: Prediction)
    ensures Run(s, [Toggle(false), Toggle(true)]).buffer == s.buffer
    ensures Run(s, [Toggle(false), Toggle(true), Frame(Classified(p))]).buffer == Push(s.buffer, p)
  {
    var off := Session(s.buffer, false);
    var on := Session(s.buffer, true);
    var evs := [Toggle(false), Toggle(true), Frame(Classified(p))];
    assert [Toggle(false), Toggle(true)][1..] == [Toggle(true)];
    assert evs[1..] == [Toggle(true), Frame(Classified(p))];
    assert evs[1..][1..] == [Frame(Classified(p))];
    assert Run(on, [Frame(Classified(p))]) == Session(Push(s.buffer, p), true);
    assert Run(off, evs[1..]) == Run(on, [Frame(Classified(p))]);
  }
}
