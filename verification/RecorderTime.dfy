/**
 * The time stamps of a screencast stream (src/shell-recorder.c). Times are
 * nanoseconds of wall time; one stream is the life of one pipeline.
 */
module RecorderTime {

  /** Crowded: too much memory is used to take another frame. Pausing paints once more, at `paint`. */
  datatype Event =
    | Record(now: nat)
    | Paint(now: nat, crowded: bool)
    | Pause(paint: nat, now: nat, crowded: bool)

  /** `labels` says in which recording segment each frame was taken; `resumes` numbers the current one. */
  datatype Stream = Stream(
    recording: bool,
    startTime: int,
    lastFrameTime: int,
    pauseTime: int,
    frames: seq<int>,
    labels: seq<nat>,
    resumes: nat)

  /** Three quarters of the desired interval between frames, in full nanoseconds */
  function Threshold(framerate: nat): (t: nat)
    requires framerate > 0
    ensures 4 * framerate * t <= 3 * 1_000_000_000 < 4 * framerate * (t + 1)
  {
    Quotient(3 * 1_000_000_000, 4 * framerate)
  }

  function Quotient(a: nat, b: nat): nat
    requires b > 0
  {
    a / b
  }

  // ---- What the recorder does -----------------------------------------------------------

  /** recorder_record_frame */
  function Frame(s: Stream, now: int, crowded: bool, threshold: nat): Stream {
    if crowded || now - s.lastFrameTime < threshold then s
    else s.(lastFrameTime := now, frames := s.frames + [now - s.startTime], labels := s.labels + [s.resumes])
  }

  function Step(s: Stream, e: Event, threshold: nat): Stream {
    match e
    case Record(now) =>
      if s.recording then s
      else s.(recording := true, startTime := s.startTime + (now - s.pauseTime), lastFrameTime := 0,
              resumes := s.resumes + 1)
    case Paint(now, crowded) => if s.recording then Frame(s, now, crowded, threshold) else s
    case Pause(paint, now, crowded) =>
      if s.recording then Frame(s, paint, crowded, threshold).(recording := false, pauseTime := now) else s
  }

  function Run(begin: nat, events: seq<Event>, threshold: nat): Stream {
    if events == [] then Stream(true, begin, 0, 0, [], [], 0)
    else Step(Run(begin, events[..|events| - 1], threshold), events[|events| - 1], threshold)
  }

  // ---- Recorded time, from the events alone --------------------------------------------------

  /** The time of the last event */
  function Clock(begin: nat, events: seq<Event>): nat {
    if events == [] then begin
    else match events[|events| - 1]
      case Record(now) => now
      case Paint(now, _) => now
      case Pause(_, now, _) => now
  }

  /** The clock does not run backwards. */
  predicate Forward(begin: nat, events: seq<Event>) {
    events == [] ||
    (var before, e := events[..|events| - 1], events[|events| - 1];
     && Forward(begin, before)
     && match e
        case Record(now) => Clock(begin, before) <= now
        case Paint(now, _) => Clock(begin, before) <= now
        case Pause(paint, now, _) => Clock(begin, before) <= paint <= now)
  }

  predicate Recording(events: seq<Event>) {
    events == [] ||
    match events[|events| - 1]
    case Record(_) => true
    case Paint(_, _) => Recording(events[..|events| - 1])
    case Pause(_, _, _) => false
  }

  /** When the current or last segment began */
  function SegmentStart(begin: nat, events: seq<Event>): nat {
    if events == [] then begin
    else
      var before, e := events[..|events| - 1], events[|events| - 1];
      if e.Record? && !Recording(before) then e.now else SegmentStart(begin, before)
  }

  /** The total length of the segments that have ended */
  function Ended(begin: nat, events: seq<Event>): int {
    if events == [] then 0
    else
      var before, e := events[..|events| - 1], events[|events| - 1];
      Ended(begin, before) + if e.Pause? && Recording(before) then e.now - SegmentStart(begin, before) else 0
  }

  /** Wall time up to t without the pauses */
  function RecordedTime(begin: nat, events: seq<Event>, t: int): int {
    Ended(begin, events) + if Recording(events) then t - SegmentStart(begin, events) else 0
  }

  // ---- The invariant ------------------------------------------------------------------------

  ghost function LastStamp(s: Stream): int {
    if s.frames == [] then 0 else s.frames[|s.frames| - 1]
  }

  /** The current segment has a frame. */
  ghost predicate HasFrame(s: Stream) {
    s.labels != [] && s.labels[|s.labels| - 1] == s.resumes
  }

  /** Stamps never decrease, and within a segment two frames are at least the threshold apart. */
  ghost predicate Spaced(s: Stream, threshold: nat) {
    && |s.labels| == |s.frames|
    && (forall k :: 0 <= k < |s.frames| ==> 0 <= s.frames[k] && s.labels[k] <= s.resumes)
    && (forall k :: 0 < k < |s.frames| ==> Follows(s, k, threshold))
  }

  ghost predicate Follows(s: Stream, k: nat, threshold: nat)
    requires 0 < k < |s.frames| == |s.labels|
  {
    && s.frames[k - 1] <= s.frames[k]
    && s.labels[k - 1] <= s.labels[k]
    && (s.labels[k - 1] == s.labels[k] ==> s.frames[k] - s.frames[k - 1] >= threshold)
  }

  /** The frames are few enough, counting one frame for free in each segment. */
  ghost predicate Counted(s: Stream, threshold: nat) {
    threshold * (|s.frames| - s.resumes - if HasFrame(s) then 1 else 0) <= LastStamp(s)
  }

  ghost predicate Timed(begin: nat, events: seq<Event>, s: Stream) {
    var clock := Clock(begin, events);
    && s.recording == Recording(events)
    && begin <= s.startTime <= clock
    && (if s.recording
        then SegmentStart(begin, events) - s.startTime == Ended(begin, events) && SegmentStart(begin, events) <= clock
        else s.pauseTime - s.startTime == Ended(begin, events) && s.startTime <= s.pauseTime <= clock)
    && LastStamp(s) <= RecordedTime(begin, events, clock)
    && (if HasFrame(s) then s.recording ==> s.lastFrameTime == LastStamp(s) + s.startTime
        else s.recording ==> s.lastFrameTime == 0)
    && 0 <= Ended(begin, events)
  }

  lemma FrameSpaced(s: Stream, now: int, crowded: bool, threshold: nat)
    requires Spaced(s, threshold) && LastStamp(s) <= now - s.startTime && 0 <= now - s.startTime
    requires HasFrame(s) ==> s.lastFrameTime == LastStamp(s) + s.startTime
    ensures Spaced(Frame(s, now, crowded, threshold), threshold)
  {
    var t := Frame(s, now, crowded, threshold);
    if t != s {
      forall k | 0 < k < |t.frames| ensures Follows(t, k, threshold) {
        if k < |s.frames| { assert Follows(s, k, threshold); }
      }
    }
  }

  /** A frame changes neither the times of the segment nor that the last frame's wall time and stamp belong together. */
  lemma FrameTimes(s: Stream, now: int, crowded: bool, threshold: nat)
    requires |s.labels| == |s.frames|
    requires if HasFrame(s) then s.lastFrameTime == LastStamp(s) + s.startTime else s.lastFrameTime == 0
    ensures var t := Frame(s, now, crowded, threshold);
            && t.recording == s.recording && t.startTime == s.startTime && t.pauseTime == s.pauseTime
            && t.resumes == s.resumes
            && (LastStamp(t) == LastStamp(s) || LastStamp(t) == now - s.startTime)
            && if HasFrame(t) then t.lastFrameTime == LastStamp(t) + t.startTime else t.lastFrameTime == 0
  {
  }

  lemma Distribute(threshold: nat, n: int)
    ensures threshold * (n + 1) == threshold * n + threshold
  {
  }

  lemma FrameCounted(s: Stream, now: int, crowded: bool, threshold: nat)
    requires Counted(s, threshold) && LastStamp(s) <= now - s.startTime
    requires HasFrame(s) ==> s.lastFrameTime == LastStamp(s) + s.startTime
    ensures Counted(Frame(s, now, crowded, threshold), threshold)
  {
    var t := Frame(s, now, crowded, threshold);
    if t != s {
      assert HasFrame(t) && LastStamp(t) == now - s.startTime;
      Distribute(threshold, |s.frames| - s.resumes - 1);
    }
  }

  lemma StepCounted(s: Stream, e: Event, threshold: nat)
    requires Counted(s, threshold) && Spaced(s, threshold)
    requires e.Paint? && s.recording ==> LastStamp(s) <= e.now - s.startTime
    requires e.Pause? && s.recording ==> LastStamp(s) <= e.paint - s.startTime
    requires HasFrame(s) && s.recording ==> s.lastFrameTime == LastStamp(s) + s.startTime
    ensures Counted(Step(s, e, threshold), threshold)
  {
    match e
    case Record(now) =>
      var t := Step(s, e, threshold);
      if t != s {
        assert !HasFrame(t);
        Distribute(threshold, |s.frames| - s.resumes - 1);
      }
    case Paint(now, crowded) => if s.recording { FrameCounted(s, now, crowded, threshold); }
    case Pause(paint, now, crowded) => if s.recording { FrameCounted(s, paint, crowded, threshold); }
  }

  lemma StepSpaced(s: Stream, e: Event, threshold: nat)
    requires Spaced(s, threshold)
    requires e.Paint? && s.recording ==> LastStamp(s) <= e.now - s.startTime && 0 <= e.now - s.startTime
    requires e.Pause? && s.recording ==> LastStamp(s) <= e.paint - s.startTime && 0 <= e.paint - s.startTime
    requires HasFrame(s) && s.recording ==> s.lastFrameTime == LastStamp(s) + s.startTime
    ensures Spaced(Step(s, e, threshold), threshold)
  {
    hide Frame;
    var t := Step(s, e, threshold);
    var f := s;
    match e {
      case Record(now) =>
      case Paint(now, crowded) =>
        if s.recording {
          FrameSpaced(s, now, crowded, threshold);
          f := Frame(s, now, crowded, threshold);
        }
      case Pause(paint, now, crowded) =>
        if s.recording {
          FrameSpaced(s, paint, crowded, threshold);
          f := Frame(s, paint, crowded, threshold);
        }
    }
    forall k | 0 < k < |t.frames| ensures Follows(t, k, threshold) { assert Follows(f, k, threshold); }
  }

  lemma StepTimed(begin: nat, events: seq<Event>, s: Stream, e: Event, threshold: nat)
    requires Timed(begin, events, s) && Spaced(s, threshold) && Forward(begin, events + [e])
    ensures Timed(begin, events + [e], Step(s, e, threshold))
    ensures e.Paint? && s.recording ==> LastStamp(s) <= e.now - s.startTime && 0 <= e.now - s.startTime
    ensures e.Pause? && s.recording ==> LastStamp(s) <= e.paint - s.startTime && 0 <= e.paint - s.startTime
  {
    hide Frame;
    assert (events + [e])[..|events + [e]| - 1] == events;
    match e
    case Record(now) =>
    case Paint(now, crowded) => if s.recording { FrameTimes(s, now, crowded, threshold); }
    case Pause(paint, now, crowded) => if s.recording { FrameTimes(s, paint, crowded, threshold); }
  }

  lemma {:induction false} RunTimed(begin: nat, events: seq<Event>, threshold: nat)
    requires Forward(begin, events)
    ensures var s := Run(begin, events, threshold);
            Timed(begin, events, s) && Spaced(s, threshold) && Counted(s, threshold)
  {
    if events != [] {
      var before, e := events[..|events| - 1], events[|events| - 1];
      assert events == before + [e];
      RunTimed(begin, before, threshold);
      var s := Run(begin, before, threshold);
      StepTimed(begin, before, s, e, threshold);
      StepSpaced(s, e, threshold);
      StepCounted(s, e, threshold);
    }
  }

  // ---- What a viewer sees ----------------------------------------------------------------------

  /** A frame taken at time t is stamped with the recorded time up to t: wall time without the pauses. */
  lemma StampIsRecordedTime(begin: nat, events: seq<Event>, t: nat, crowded: bool, threshold: nat)
    requires Forward(begin, events + [Paint(t, crowded)])
    ensures var s := Run(begin, events, threshold); var r := Run(begin, events + [Paint(t, crowded)], threshold);
            || r.frames == s.frames
            || (r.frames == s.frames + [RecordedTime(begin, events, t)] && 0 <= RecordedTime(begin, events, t))
  {
    assert (events + [Paint(t, crowded)])[..|events|] == events;
    RunTimed(begin, events, threshold);
  }

  /** The frame that pausing takes as well. */
  lemma LastStampIsRecordedTime(begin: nat, events: seq<Event>, t: nat, now: nat, crowded: bool, threshold: nat)
    requires Forward(begin, events + [Pause(t, now, crowded)])
    ensures var s := Run(begin, events, threshold); var r := Run(begin, events + [Pause(t, now, crowded)], threshold);
            || r.frames == s.frames
            || (r.frames == s.frames + [RecordedTime(begin, events, t)] && 0 <= RecordedTime(begin, events, t))
  {
    assert (events + [Pause(t, now, crowded)])[..|events|] == events;
    RunTimed(begin, events, threshold);
  }

  /** A frame is dropped exactly when memory is short or the frame before it in this segment is too close. */
  lemma DroppedExactly(begin: nat, events: seq<Event>, t: nat, crowded: bool, threshold: nat)
    requires Forward(begin, events + [Paint(t, crowded)]) && Recording(events) && threshold <= t
    ensures var s := Run(begin, events, threshold); var r := Run(begin, events + [Paint(t, crowded)], threshold);
            r.frames == s.frames <==>
            crowded || (HasFrame(s) && RecordedTime(begin, events, t) - LastStamp(s) < threshold)
  {
    assert (events + [Paint(t, crowded)])[..|events|] == events;
    RunTimed(begin, events, threshold);
    var s, r := Run(begin, events, threshold), Run(begin, events + [Paint(t, crowded)], threshold);
    assert r.frames == s.frames <==> |r.frames| == |s.frames|;
  }

  /** When the last frame of the segment was taken; before the first one of a segment it counts as 0. */
  function LastTaken(begin: nat, events: seq<Event>, threshold: nat): int
    decreases |events|, 0
  {
    if events == [] then 0
    else
      var before, e := events[..|events| - 1], events[|events| - 1];
      if e.Record? && !Recording(before) then 0
      else if Takes(begin, before, e, threshold) then TimeOf(e) else LastTaken(begin, before, threshold)
  }

  /** The time at which an event looks at the screen */
  function TimeOf(e: Event): int {
    match e
    case Record(now) => now
    case Paint(now, _) => now
    case Pause(paint, _, _) => paint
  }

  /** While recording, painting and pausing take a frame, unless memory is short or the last one is too close. */
  predicate Takes(begin: nat, before: seq<Event>, e: Event, threshold: nat)
    decreases |before|, 1
  {
    && Recording(before) && !e.Record? && !e.crowded
    && TimeOf(e) - LastTaken(begin, before, threshold) >= threshold
  }

  /** The stamps of all frames, from the events alone */
  function Film(begin: nat, events: seq<Event>, threshold: nat): seq<int> {
    if events == [] then []
    else
      var before, e := events[..|events| - 1], events[|events| - 1];
      Film(begin, before, threshold) +
      if Takes(begin, before, e, threshold) then [RecordedTime(begin, before, TimeOf(e))] else []
  }

  lemma StepTakes(begin: nat, before: seq<Event>, s: Stream, e: Event, threshold: nat)
    requires s.recording == Recording(before) && s.lastFrameTime == LastTaken(begin, before, threshold)
    requires s.recording ==> RecordedTime(begin, before, TimeOf(e)) == TimeOf(e) - s.startTime
    ensures var r := Step(s, e, threshold);
            && r.frames == s.frames +
                 (if Takes(begin, before, e, threshold) then [RecordedTime(begin, before, TimeOf(e))] else [])
            && r.lastFrameTime ==
                 (if e.Record? && !Recording(before) then 0
                  else if Takes(begin, before, e, threshold) then TimeOf(e) else s.lastFrameTime)
  {
    hide RecordedTime;
    hide LastTaken;
    assert s.frames + [] == s.frames;
  }

  lemma FilmSnoc(begin: nat, before: seq<Event>, e: Event, threshold: nat)
    ensures Film(begin, before + [e], threshold) ==
            Film(begin, before, threshold) +
            if Takes(begin, before, e, threshold) then [RecordedTime(begin, before, TimeOf(e))] else []
    ensures LastTaken(begin, before + [e], threshold) ==
            if e.Record? && !Recording(before) then 0
            else if Takes(begin, before, e, threshold) then TimeOf(e) else LastTaken(begin, before, threshold)
  {
    assert (before + [e])[..|before|] == before;
  }

  lemma TimedStamp(begin: nat, events: seq<Event>, s: Stream, t: int)
    requires Timed(begin, events, s)
    ensures s.recording == Recording(events)
    ensures s.recording ==> RecordedTime(begin, events, t) == t - s.startTime
  {
  }

  /** The stream of any run holds exactly these frames. */
  lemma {:induction false} FramesAreTaken(begin: nat, events: seq<Event>, threshold: nat)
    requires Forward(begin, events)
    ensures Run(begin, events, threshold).frames == Film(begin, events, threshold)
    ensures Run(begin, events, threshold).lastFrameTime == LastTaken(begin, events, threshold)
  {
    hide Step;
    hide Takes;
    hide RecordedTime;
    hide Timed;
    hide Recording;
    if events != [] {
      var before, e := events[..|events| - 1], events[|events| - 1];
      assert events == before + [e];
      var s := Run(begin, before, threshold);
      FramesAreTaken(begin, before, threshold);
      RunTimed(begin, before, threshold);
      TimedStamp(begin, before, s, TimeOf(e));
      StepTakes(begin, before, s, e, threshold);
      FilmSnoc(begin, before, e, threshold);
    }
  }

  /** Stamps never decrease, are spaced within a segment, and there are not too many of them. */
  lemma FramesBounded(begin: nat, events: seq<Event>, threshold: nat)
    requires Forward(begin, events)
    ensures var s := Run(begin, events, threshold);
            && Spaced(s, threshold)
            && threshold * (|s.frames| - (s.resumes + 1)) <= RecordedTime(begin, events, Clock(begin, events))
  {
    RunTimed(begin, events, threshold);
    var s := Run(begin, events, threshold);
    Distribute(threshold, |s.frames| - s.resumes - 1);
  }
}
