/**
 * The screencast recorder: opening its file, and recording, pausing and
 * closing (src/shell-recorder.c).
 */
module Recorder {
  import opened Numerals
  import opened Wrappers

  import opened RecorderNames
  import opened RecorderFiles
  import opened RecorderTime

  const DEFAULT_FILENAME := "Screencast at %d %t.webm"

  datatype State = Closed | Paused | Recording

  datatype Errno = NoError | EEXIST | OtherError

  /** open with O_CREAT and O_TRUNC, and O_EXCL if exclusive */
  function Open(files: Files, name: string, exclusive: bool): Errno {
    if name in files.refused then OtherError
    else if exclusive && name in files.existing then EEXIST
    else NoError
  }

  /**
   * What comes of a call that opens a file: done, refused, still trying after
   * the turns of the loop it was given, or lost behind the end of the pattern,
   * where the original goes on reading and nothing more can be said.
   */
  datatype Reply = Done | Refused | StillTrying | Lost

  class ShellRecorder {
    const framerate: nat
    const memoryTarget: nat
    var filename: Option<string>
    var filenameHasCount: bool
    var count: nat
    var unique: Option<string>
    var state: State
    var pipeline: bool
    var startTime: int
    var lastFrameTime: int
    var pauseTime: int
    var frames: seq<int>
    ghost var begin: nat
    ghost var events: seq<Event>

    /** While there is a pipeline, the fields are those of its run of events. */
    ghost predicate Sound()
      reads this
    {
      && framerate > 0
      && (state == Closed ==> !pipeline)
      && (pipeline ==>
            && Forward(begin, events)
            && var s := Run(begin, events, Threshold(framerate));
               && s.recording == (state == Recording)
               && s.startTime == startTime && s.lastFrameTime == lastFrameTime
               && (state == Paused ==> s.pauseTime == pauseTime)
               && s.frames == frames)
    }

    /** There is a pipeline to record to. */
    ghost predicate Valid()
      reads this
    {
      Sound() && (state == Recording ==> pipeline)
    }

    constructor (framerate: nat, memoryTarget: nat, filename: Option<string>)
      requires framerate > 0
      ensures Valid() && state == Closed && !filenameHasCount && count == 0 && unique.None? && !pipeline
      ensures this.framerate == framerate && this.memoryTarget == memoryTarget && this.filename == filename
    {
      this.framerate, this.memoryTarget, this.filename := framerate, memoryTarget, filename;
      filenameHasCount, count, unique, state, pipeline := false, 0, None, Closed, false;
      startTime, lastFrameTime, pauseTime, frames := 0, 0, 0, [];
      begin, events := 0, [];
    }

    function Pattern(): string
      reads this
    {
      if filename.Some? then filename.value else DEFAULT_FILENAME
    }

    /** What the next call to open the file will depend on */
    function NextCall(date: string, time: string, files: Files): Call
      reads this
    {
      var pieces := Scan(Pattern()).pieces;
      Call(pieces, Texts(Decimal(count + 1), date, time), filenameHasCount || Count in pieces, unique, files)
    }

    /** The body of the loop in recorder_open_outfile; the outcome is meaningful for a complete pattern. */
    method TryOnce(x: Texts, files: Files, local: string) returns (ending: Ending, outcome: Outcome)
      modifies this`filenameHasCount
      ensures filenameHasCount == (old(filenameHasCount) || Count in Scan(Pattern()).pieces)
      ensures ending == Scan(Pattern()).ending
      ensures var c := Call(Scan(Pattern()).pieces, x, filenameHasCount, unique, files);
              ending == Complete ==>
                outcome == TryName(c, Name(c.pieces, x, if unique.Some? then unique.value else local))
    {
      outcome := Failed;
      var name, hasCount;
      name, ending, hasCount := Expand(Pattern(), x, if unique.Some? then unique.value else local);
      filenameHasCount := filenameHasCount || hasCount;
      if ending != Complete { return; }
      var errno := Open(files, name, filenameHasCount);
      if errno == NoError { return ending, Opened(name); }
      if errno != EEXIST || !filenameHasCount { return ending, Failed; }
      if unique.Some? { return ending, Failed; }
      return ending, Retry;
    }

    /**
     * recorder_open_outfile, for at most so many turns of its loop. `tries`
     * is the number of names that were taken before the last one tried. A
     * unique string picked for an earlier file is used once more and then
     * forgotten. With more turns than there are files, the loop has ended
     * unless it never ends. A file that existed is truncated exactly when no
     * count has been in the filename.
     */
    method OpenOutfile(date: string, time: string, files: Files, turns: nat)
      returns (reply: Reply, outfile: Option<string>, tries: nat)
      requires turns > 0
      modifies this`count, this`filenameHasCount, this`unique
      ensures count == old(count) + 1
      ensures filenameHasCount == (old(filenameHasCount) || Count in Scan(Pattern()).pieces)
      ensures outfile.Some? <==> reply == Done
      ensures Scan(Pattern()).ending == UnknownEscape ==> reply == Refused
      ensures Scan(Pattern()).ending == PastEnd <==> reply == Lost
      ensures var c := old(NextCall(date, time, files));
              Scan(Pattern()).ending == Complete ==>
                && (reply == StillTrying ==> tries == turns && AllTaken(c, turns))
                && (reply != StillTrying ==> tries < turns && EndsAt(c, tries, outfile))
                && (turns > |files.existing| ==> (reply == StillTrying <==> Stuck(c)))
      ensures outfile.Some? ==>
                (outfile.value in files.existing <==>
                 !filenameHasCount && NameAt(old(NextCall(date, time, files)), 0) in files.existing)
      ensures outfile.Some? ==>
                outfile.value == NameAt(old(NextCall(date, time, files)), tries) && outfile.value !in files.refused
      ensures reply == Refused && Scan(Pattern()).ending == Complete ==>
                var name := NameAt(old(NextCall(date, time, files)), tries);
                name in files.refused || (filenameHasCount && name in files.existing && old(unique).Some?)
      ensures outfile.None? ==> unique == old(unique)
      ensures outfile.Some? ==> unique == Some(At(tries)) && (old(unique).Some? ==> unique == Some(""))
    {
      hide Scan;
      hide Attempt;
      hide Stuck;
      hide Place;
      hide At;
      hide EndsAt;
      hide NameAt;
      count := count + 1;
      ghost var c := old(NextCall(date, time, files));
      var x := Texts(Decimal(count), date, time);
      var local := "";
      tries := 0;
      NoneTaken(c);
      while tries < turns
        invariant tries <= turns && local == At(tries) && AllTaken(c, tries)
        invariant Scan(Pattern()).ending == Complete || tries == 0
        invariant count == old(count) + 1 && unique == old(unique)
        invariant filenameHasCount == (old(filenameHasCount) || (tries > 0 && Count in Scan(Pattern()).pieces))
      {
        var ending, outcome := TryOnce(x, files, local);
        if ending != Complete { return if ending == PastEnd then Lost else Refused, None, tries; }
        AttemptIs(c, tries, outcome);
        OneTry(c, tries);
        if outcome != Retry {
          EndsHere(c, tries);
          HowItEnds(c, tries, if outcome.Opened? then Some(outcome.name) else None);
          if outcome.Opened? {
            Overwrites(c, tries, outcome.name);
            unique := Some(local);
            return Done, Some(outcome.name), tries;
          }
          return Refused, None, tries;
        }
        TriedOneMore(c, tries);
        PlaceAt(tries);
        local := IncrementUnique(local);
        NextAt(tries, local);
        tries := tries + 1;
      }
      if turns > |files.existing| { StillTryingIsStuck(c, turns); }
      return StillTrying, None, tries;
    }

    /** recorder_open_pipeline */
    method OpenPipeline(build: Build, date: string, time: string, files: Files, turns: nat) returns (reply: Reply)
      requires !pipeline && turns > 0
      modifies this`count, this`filenameHasCount, this`unique, this`pipeline
      ensures pipeline <==> reply == Done
      ensures build.Broken? ==> reply == Refused
      ensures build.OwnSink? ==> reply == Done
      ensures !build.NeedsFile? ==>
                count == old(count) && filenameHasCount == old(filenameHasCount) && unique == old(unique)
      ensures build.NeedsFile? ==> count == old(count) + 1 && (reply == Done ==> unique.Some?)
      ensures build.NeedsFile? && turns > |files.existing| ==>
                (reply == StillTrying <==>
                 Scan(Pattern()).ending == Complete && Stuck(old(NextCall(date, time, files))))
    {
      hide Scan;
      hide Stuck;
      if build.Broken? { return Refused; }
      if build.NeedsFile? {
        var outfile, tries;
        reply, outfile, tries := OpenOutfile(date, time, files, turns);
        if reply != Done { return; }
        if !build.linked { return Refused; }
      }
      pipeline := true;
      return Done;
    }

    /** shell_recorder_record: opens a pipeline, or goes on with the one there is */
    method StartRecording(now: nat, build: Build, date: string, time: string, files: Files, turns: nat)
      returns (reply: Reply)
      requires Valid() && turns > 0 && (pipeline ==> Clock(begin, events) <= now)
      modifies this
      ensures Valid()
      ensures reply == Done ==> state == Recording && pipeline
      ensures reply != Done ==> state == old(state) && pipeline == old(pipeline) && frames == old(frames)
      ensures old(state) == Recording ==> reply == Refused && begin == old(begin) && events == old(events)
      ensures old(pipeline) && old(state) != Recording ==>
                reply == Done && begin == old(begin) && events == old(events) + [Event.Record(now)]
      ensures reply == Done && !old(pipeline) ==> begin == now && events == [] && frames == []
      ensures old(state) != Recording && !old(pipeline) ==>
                (build.OwnSink? ==> reply == Done) && (build.Broken? ==> reply == Refused)
    {
      hide Scan;
      if state == Recording { return Refused; }
      if pipeline {
        assert (events + [Event.Record(now)])[..|events|] == events;
        startTime := startTime + (now - pauseTime);
        lastFrameTime := 0;
        events := events + [Event.Record(now)];
      } else {
        reply := OpenPipeline(build, date, time, files, turns);
        if reply != Done { return; }
        startTime := now;
        lastFrameTime := 0;
        frames, begin, events := [], now, [];
      }
      state := Recording;
      return Done;
    }

    predicate Drops(now: nat, memoryUsed: nat)
      requires framerate > 0
      reads this
    {
      memoryUsed > memoryTarget * 13 / 16 || now - lastFrameTime < Threshold(framerate)
    }

    /**
     * recorder_record_frame, for a positive framerate. A frame that is not
     * dropped goes to the current pipeline; without one the recorder crashes.
     */
    method RecordFrame(now: nat, memoryUsed: nat) returns (crashed: bool)
      requires framerate > 0
      modifies this`lastFrameTime, this`frames
      ensures crashed <==> !old(Drops(now, memoryUsed)) && !pipeline
      ensures lastFrameTime == if old(Drops(now, memoryUsed)) then old(lastFrameTime) else now
      ensures frames == old(frames) + if old(Drops(now, memoryUsed)) || crashed then [] else [now - startTime]
    {
      if memoryUsed > memoryTarget * 13 / 16 { return false; }
      if now - lastFrameTime < Threshold(framerate) { return false; }
      lastFrameTime := now;
      if !pipeline { return true; }
      frames := frames + [now - startTime];
      return false;
    }

    /** recorder_on_stage_paint */
    method OnStagePaint(now: nat, memoryUsed: nat)
      requires Valid() && (pipeline ==> Clock(begin, events) <= now)
      modifies this`lastFrameTime, this`frames, this`events
      ensures Valid() && begin == old(begin)
      ensures events == if state == Recording then old(events) + [Paint(now, memoryUsed > memoryTarget * 13 / 16)]
                        else old(events)
      ensures state != Recording ==> frames == old(frames)
    {
      if state == Recording {
        var crashed := RecordFrame(now, memoryUsed);
        assert !crashed;
        ghost var e := Paint(now, memoryUsed > memoryTarget * 13 / 16);
        assert (events + [e])[..|events|] == events;
        events := events + [e];
      }
    }

    /** recorder_close_pipeline */
    method ClosePipeline()
      modifies this`pipeline, this`filenameHasCount
      ensures !pipeline && filenameHasCount == (old(filenameHasCount) && !old(pipeline))
    {
      if pipeline { pipeline, filenameHasCount := false, false; }
    }

    /** shell_recorder_pause. With a count in the filename the stream ends here. */
    method PauseRecording(paint: nat, now: nat, memoryUsed: nat) returns (crashed: bool)
      requires Sound() && (pipeline ==> Clock(begin, events) <= paint <= now)
      modifies this
      ensures crashed <==> old(state) == Recording && !old(pipeline) && !old(Drops(paint, memoryUsed))
      ensures !crashed ==> Valid() && begin == old(begin) && count == old(count) && unique == old(unique)
      ensures !crashed && old(state) != Recording ==>
                state == old(state) && events == old(events) && frames == old(frames) && pipeline == old(pipeline)
      ensures !crashed && old(state) == Recording ==>
                state == Paused && pipeline == (old(pipeline) && !old(filenameHasCount))
      ensures !crashed && old(state) == Recording && old(pipeline) ==>
                && !filenameHasCount
                && events == old(events) + [Event.Pause(paint, now, memoryUsed > memoryTarget * 13 / 16)]
                && frames == Run(begin, events, Threshold(framerate)).frames
      ensures !old(pipeline) ==> filenameHasCount == old(filenameHasCount)
    {
      if state != Recording { return false; }
      crashed := RecordFrame(paint, memoryUsed);
      if crashed { return; }
      ghost var e := Event.Pause(paint, now, memoryUsed > memoryTarget * 13 / 16);
      assert (events + [e])[..|events|] == events;
      if pipeline { events := events + [e]; }
      if filenameHasCount { ClosePipeline(); }
      state := Paused;
      pauseTime := now;
    }

    /** shell_recorder_close */
    method Close(paint: nat, now: nat, memoryUsed: nat) returns (crashed: bool)
      requires Sound() && (pipeline ==> Clock(begin, events) <= paint <= now)
      modifies this
      ensures crashed <==> old(state) == Recording && !old(pipeline) && !old(Drops(paint, memoryUsed))
      ensures !crashed ==> Valid() && state == Closed
      ensures !crashed && old(state) != Closed ==> count == 0 && unique.None? && !pipeline
      ensures old(state) == Closed ==> count == old(count) && unique == old(unique)
      ensures !old(pipeline) ==> filenameHasCount == old(filenameHasCount)
    {
      if state == Closed { return false; }
      if state == Recording {
        crashed := PauseRecording(paint, now, memoryUsed);
        if crashed { return; }
      }
      ClosePipeline();
      state := Closed;
      count, unique := 0, None;
      return false;
    }

    /**
     * recorder_pipeline_closed for the current pipeline, after an error in
     * it. The pipeline is given up before the recorder is closed, so closing
     * while recording crashes if and only if the frame that pausing takes is
     * not dropped. Otherwise the recorder is closed, but still takes its
     * filename for one with a count if it was.
     */
    method PipelineClosed(paint: nat, now: nat, memoryUsed: nat) returns (crashed: bool)
      requires Valid() && pipeline
      modifies this
      ensures crashed <==> old(state) == Recording && !old(Drops(paint, memoryUsed))
      ensures !crashed ==> Valid() && state == Closed && !pipeline && count == 0 && unique.None?
      ensures filenameHasCount == old(filenameHasCount)
    {
      pipeline := false;
      crashed := Close(paint, now, memoryUsed);
    }

    /**
     * What the stream holds at any moment: the frames that its events alone
     * call for, in order, spaced within each segment, and at most one more per
     * segment than fit into the recorded time.
     */
    lemma StreamOk()
      requires Valid() && pipeline
      ensures frames == Film(begin, events, Threshold(framerate))
      ensures forall j, k :: 0 <= j < k < |frames| ==> 0 <= frames[j] <= frames[k]
      ensures var s := Run(begin, events, Threshold(framerate));
              && s.frames == frames && Spaced(s, Threshold(framerate))
              && Threshold(framerate) * (|frames| - (s.resumes + 1))
                 <= RecordedTime(begin, events, Clock(begin, events))
    {
      hide Run;
      FramesAreTaken(begin, events, Threshold(framerate));
      FramesBounded(begin, events, Threshold(framerate));
      var s := Run(begin, events, Threshold(framerate));
      forall j, k | 0 <= j < k < |frames| ensures 0 <= frames[j] <= frames[k] {
        Ascending(s, Threshold(framerate), j, k);
      }
    }
  }

  lemma {:induction false} Ascending(s: Stream, threshold: nat, j: nat, k: nat)
    requires Spaced(s, threshold) && j <= k < |s.frames|
    ensures 0 <= s.frames[j] <= s.frames[k]
  {
    if j < k {
      assert Follows(s, k, threshold);
      Ascending(s, threshold, j, k - 1);
    }
  }

  /**
   * What becomes of the pipeline description: it needs a file, whose sink can
   * be linked or not, or has its own sink.
   */
  datatype Build = Broken | NeedsFile(linked: bool) | OwnSink

  /** The default pattern has a place for the unique string and none for a count. */
  lemma DefaultPattern()
    ensures Scan(DEFAULT_FILENAME).ending == Complete
    ensures Unique in Scan(DEFAULT_FILENAME).pieces && Count !in Scan(DEFAULT_FILENAME).pieces
  {
    hide Scan;
    var end := ".webm" + "";
    var middle := " " + (['%', 't'] + end);
    var pattern := "Screencast at " + (['%', 'd'] + middle);
    ScanNothing();
    ScanText(".webm", "");
    ScanEscape('t', end);
    ScanText(" ", ['%', 't'] + end);
    ScanEscape('d', middle);
    ScanText("Screencast at ", ['%', 'd'] + middle);
    assert pattern == DEFAULT_FILENAME;
  }

  /** So with the default pattern a file of the first name is truncated at the first try, whatever the %t in it. */
  lemma DefaultOverwrites(x: Texts, unique: Option<string>, files: Files)
    ensures var pieces := Scan(DEFAULT_FILENAME).pieces;
            var c := Call(pieces, x, Count in pieces, unique, files);
            NameAt(c, 0) in files.existing && NameAt(c, 0) !in files.refused ==> EndsAt(c, 0, Some(NameAt(c, 0)))
  {
    hide Scan;
    DefaultPattern();
  }

  // ---- Two things that go wrong ---------------------------------------------------------

  /** The names of the pattern %c%u */
  lemma CountAndUnique(c: Call, k: nat)
    requires c.pieces == [Count, Unique]
    ensures NameAt(c, k) == c.texts.count + if c.picked.Some? then c.picked.value else At(k)
  {
    hide At;
    hide Name;
    var u := if c.picked.Some? then c.picked.value else At(k);
    NameAppend([Count], [Unique], c.texts, u);
    NameOfOne(Count, c.texts, u);
    NameOfOne(Unique, c.texts, u);
    assert [Count] + [Unique] == c.pieces;
  }

  lemma ScanCountAndUnique()
    ensures Scan("%c%u") == Scanned([Count, Unique], Complete)
  {
    hide Scan;
    var pattern := "%c%u";
    assert pattern[0..] == pattern;
    ScanFront(pattern, 0);
    ScanFront(pattern, 2);
    ScanFront(pattern, 4);
    assert [Count] + ([Unique] + []) == [Count, Unique];
  }

  /** How a call with this pattern ends, if the first or the second name decides it */
  lemma CountAndUniqueEnds(c: Call, k: nat, outfile: Option<string>)
    requires c.pieces == [Count, Unique] && c.exclusive && EndsAt(c, k, outfile)
    ensures var first := c.texts.count + if c.picked.Some? then c.picked.value else "";
            var second := c.texts.count + "a";
            && (first !in c.files.refused && first !in c.files.existing ==> k == 0 && outfile == Some(first))
            && (first in c.files.existing && c.picked.Some? ==> outfile.None?)
            && (first in c.files.existing && c.picked.None? && {first, second} !! c.files.refused ==>
                  second !in c.files.existing ==> k == 1 && outfile == Some(second))
  {
    hide NameAt;
    CountAndUnique(c, 0);
    CountAndUnique(c, 1);
    assert At(0) == "" && At(1) == "a";
    hide At;
    if k > 0 { assert Attempt(c, 0) == Retry; }
    if k > 1 { assert Attempt(c, 1) == Retry; }
  }

  /** One file of a session with the pattern %c%u, and what becomes of the unique string */
  method OneFile(r: ShellRecorder, files: Files) returns (outfile: Option<string>)
    requires r.filename == Some("%c%u") && files.refused == {}
    modifies r`count, r`filenameHasCount, r`unique
    ensures r.count == old(r.count) + 1
    ensures var first := Decimal(r.count) + if old(r.unique).Some? then old(r.unique).value else "";
            var second := Decimal(r.count) + "a";
            && (first !in files.existing ==> outfile == Some(first) && r.unique == Some(""))
            && (first in files.existing && old(r.unique).Some? ==> outfile.None? && r.unique == old(r.unique))
            && (first in files.existing && old(r.unique).None? && second !in files.existing ==>
                  outfile == Some(second) && r.unique == Some("a"))
  {
    hide Scan;
    hide NameAt;
    hide Decimal;
    hide EndsAt;
    hide Attempt;
    hide At;
    hide Stuck;
    hide AllTaken;
    ScanCountAndUnique();
    FirstTwo();
    ghost var c := r.NextCall("", "", files);
    CountAndUniqueGoesOn(c);
    var reply, tries;
    reply, outfile, tries := r.OpenOutfile("", "", files, |files.existing| + 1);
    CountAndUniqueEnds(c, tries, outfile);
  }

  lemma FirstTwo()
    ensures At(0) == "" && At(1) == "a"
  {
  }

  lemma CountAndUniqueGoesOn(c: Call)
    requires c.pieces == [Count, Unique]
    ensures !Stuck(c) && Count in c.pieces
  {
    assert c.pieces[0] == Count && c.pieces[1] == Unique;
  }

  /**
   * With the pattern %c%u and a file "1", the first file of a session is
   * called "1a" and the unique string is "a". The second one is called "2a",
   * with nothing in the way of "2", and leaves the empty string behind. So the
   * third call, with a file "3" in its way, is refused without another try.
   */
  method UniqueIsForgotten() returns (r: ShellRecorder, names: seq<Option<string>>, unique: seq<Option<string>>)
    ensures names == [Some("1a"), Some("2a"), None]
    ensures unique == [Some("a"), Some(""), Some("")]
  {
    assert Decimal(1) == "1" && Decimal(2) == "2" && Decimal(3) == "3";
    assert "1" + "" == "1" && "1" + "a" == "1a" && "2" + "a" == "2a" && "3" + "" == "3";
    r := new ShellRecorder(30, 0, Some("%c%u"));
    var first := OneFile(r, Files({"1"}, {}));
    unique := [r.unique];
    var second := OneFile(r, Files({"1", "1a"}, {}));
    unique := unique + [r.unique];
    var third := OneFile(r, Files({"1", "1a", "2a", "3"}, {}));
    unique := unique + [r.unique];
    names := [first, second, third];
  }

  /** An error in the pipeline one second into a recording, with all memory free, crashes the recorder. */
  method ErrorCrashes() returns (crashed: bool)
    ensures crashed
  {
    var r := new ShellRecorder(30, 1000, None);
    var now := 1_000_000_000;
    var reply := r.StartRecording(now, OwnSink, "", "", Files({}, {}), 1);
    crashed := r.PipelineClosed(2 * now, 2 * now, 0);
  }
}
