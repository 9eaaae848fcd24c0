/**
 * What a replay says about the calls that filled the log: the exact replayed
 * time of every event under an arbitrary clock, and when the replay is the
 * recorded history itself.
 */
module PerfLogReplay {
  import opened Wrappers
  import opened PerfLogFormat
  import opened PerfLogModel
  import opened PerfLogInvariant

  // ---- The recorded history -------------------------------------------------

  /** The event a call of record_event stores, with its true time. */
  function Recorded(v: Log, now: Clock, id: uint16, arg: Arg): seq<Event>
    requires id < |v.events|
  {
    if Accepts(v, arg) then [Event(now, v.events[id], arg)] else []
  }

  function ActionTrace(v: Log, a: Action): seq<Event>
    requires Inv(v)
  {
    if !a.LogAction? then []
    else
      var id := LookupEvent(v, a.name, a.arg.Sig());
      if id.None? then [] else Recorded(v, a.now, id.value, a.arg)
  }

  function ActionsTrace(v: Log, actions: seq<Action>): seq<Event>
    requires Inv(v)
  {
    if actions == [] then []
    else
      var n := |actions| - 1;
      ActionsTrace(v, actions[..n]) + ActionTrace(Acts(v, actions[..n]), actions[n])
  }

  /** The record of one statistic in a collection: present iff it is initialized and its value changed. */
  function StatisticTrace(v: Log, now: Clock, i: nat): seq<Event>
    requires Inv(v) && i < |v.stats|
  {
    var s := v.stats[i];
    assert StatisticOk(v.events, s);
    if Due(s) then Recorded(v, now, s.event, s.current) else []
  }

  function StatisticsTrace(v: Log, now: Clock, n: nat): seq<Event>
    requires Inv(v) && n <= |v.stats|
  {
    if n == 0 then [] else StatisticsTrace(v, now, n - 1) + StatisticTrace(v, now, n - 1)
  }

  function OpTrace(v: Log, op: Op): seq<Event>
    requires Inv(v)
  {
    match op
    case Do(a) => ActionTrace(v, a)
    case Collect(now, took, callbacks) =>
      if !v.enabled then []
      else
        var u := Acts(v, callbacks);
        ActionsTrace(v, callbacks) + StatisticsTrace(u, now, |u.stats|)
        + Recorded(u, now, STATISTICS_COLLECTED, Int64(took))
  }

  /** Every accepted event of a run, in order and with the time at which it happened. */
  function RunTrace(v: Log, ops: seq<Op>): seq<Event>
    requires Inv(v)
  {
    if ops == [] then []
    else
      var n := |ops| - 1;
      RunTrace(v, ops[..n]) + OpTrace(Run(v, ops[..n]), ops[n])
  }

  // ---- The replay clock ------------------------------------------------------

  predicate IsSetTime(e: Event) {
    e.def == BUILTIN[0] && e.arg.Int64?
  }

  function LastTime(start: int, trace: seq<Event>): int {
    if trace == [] then start else trace[|trace| - 1].time
  }

  /** The replay's clock after the last event of a history. */
  function ClockAfter(start: int, trace: seq<Event>): int {
    if trace == [] then start
    else
      var n := |trace| - 1;
      var prev := LastTime(start, trace[..n]);
      if IsSetTime(trace[n]) then trace[n].arg.x
      else if NeedsEscape(prev, trace[n].time) then trace[n].time
      else ClockAfter(start, trace[..n]) + Delta(prev, trace[n].time)
  }

  /** What the replay shows of a history: perf.setTime hidden, every other event at the replay's clock. */
  function Shown(start: int, trace: seq<Event>): seq<Event> {
    if trace == [] then []
    else
      var n := |trace| - 1;
      Shown(start, trace[..n]) +
      if IsSetTime(trace[n]) then [] else [Event(ClockAfter(start, trace), trace[n].def, trace[n].arg)]
  }

  ghost predicate Agrees(v: Log, start: int, trace: seq<Event>)
    requires Inv(v)
  {
    && Replay(v) == Shown(start, trace)
    && EndClock(v) == ClockAfter(start, trace)
    && v.lastTime == LastTime(start, trace)
  }

  lemma ShownSnoc(start: int, trace: seq<Event>, e: Event)
    ensures var now := e.time;
            var prev := LastTime(start, trace);
            var clock := if IsSetTime(e) then e.arg.x
                         else if NeedsEscape(prev, now) then now
                         else ClockAfter(start, trace) + Delta(prev, now);
            && ClockAfter(start, trace + [e]) == clock
            && Shown(start, trace + [e]) ==
               Shown(start, trace) + (if IsSetTime(e) then [] else [Event(clock, e.def, e.arg)])
  {
    assert (trace + [e])[..|trace|] == trace;
  }

  lemma SetTimeIsEventZero(v: Log, id: uint16)
    requires Inv(v) && id < |v.events|
    ensures v.events[id] == BUILTIN[0] <==> id == SET_TIME
  {
    assert v.events[0] == v.events[..2][0];
  }

  lemma RecordAgrees(v: Log, start: int, trace: seq<Event>, now: Clock, id: uint16, arg: Arg)
    requires Inv(v) && Agrees(v, start, trace) && RecordOk(v.events, Record(0, id, arg))
    ensures Inv(RecordEvent(v, now, id, arg))
    ensures Agrees(RecordEvent(v, now, id, arg), start, trace + Recorded(v, now, id, arg))
  {
    RecordEventInv(v, now, id, arg);
    if Accepts(v, arg) {
      RecordEventReplay(v, now, id, arg);
      SetTimeIsEventZero(v, id);
      ShownSnoc(start, trace, Event(now, v.events[id], arg));
      hide Inv;
      hide Replay;
      hide EndClock;
      hide Shown;
      hide ClockAfter;
    } else {
      assert trace + [] == trace;
    }
  }

  lemma ActAgrees(v: Log, start: int, trace: seq<Event>, a: Action)
    requires Inv(v) && Agrees(v, start, trace)
    ensures Inv(Act(v, a)) && Agrees(Act(v, a), start, trace + ActionTrace(v, a))
  {
    hide Inv;
    hide Agrees;
    hide Replay;
    hide EndClock;
    hide FindEvent;
    hide FindStatistic;
    hide RecordEvent;
    hide Recorded;
    ActInv(v, a);
    InRange(v);
    assert trace + [] == trace;
    match a
    case DefineAction(name, signature) =>
      DefineInv(v, name, signature);
      AgreesFrame(v, Act(v, a), start, trace);
    case DefineStatisticAction(name, signature) =>
      DefineStatisticInv(v, name, signature);
      AgreesFrame(v, Act(v, a), start, trace);
    case EnableAction(on) =>
      EnableSame(v, on);
      AgreesFrame(v, Act(v, a), start, trace);
    case LogAction(now, name, arg) =>
      var id := LookupEvent(v, name, arg.Sig());
      if id.Some? { RecordAgrees(v, start, trace, now, id.value, arg); }
    case UpdateAction(name, value) =>
      UpdateInv(v, name, value);
      AgreesFrame(v, Act(v, a), start, trace);
  }

  lemma InRange(v: Log)
    requires Inv(v)
    ensures |v.events| <= MAX_EVENTS && StatisticsOk(v) && forall s :: s in v.stats ==> s.event < |v.events|
  {
    forall i | 0 <= i < |v.stats| ensures v.stats[i].event < |v.events| { assert StatisticOk(v.events, v.stats[i]); }
  }

  lemma EnableSame(v: Log, on: bool)
    requires Inv(v)
    ensures var w := v.(enabled := on);
            Inv(w) && Replay(w) == Replay(v) && EndClock(w) == EndClock(v)
  {
    hide ReplayEvents;
    hide StatisticOk;
    hide RecordOk;
    hide Packed;
  }

  lemma AgreesFrame(v: Log, w: Log, start: int, trace: seq<Event>)
    requires Inv(v) && Inv(w) && Agrees(v, start, trace)
    requires Replay(w) == Replay(v) && EndClock(w) == EndClock(v) && w.lastTime == v.lastTime
    ensures Agrees(w, start, trace)
  {
    hide Replay;
    hide EndClock;
    hide Shown;
    hide ClockAfter;
    hide Inv;
  }

  lemma {:induction false} ActsAgree(v: Log, start: int, trace: seq<Event>, actions: seq<Action>)
    requires Inv(v) && Agrees(v, start, trace)
    ensures Agrees(Acts(v, actions), start, trace + ActionsTrace(v, actions))
  {
    hide Agrees;
    hide Inv;
    if actions == [] {
      assert trace + [] == trace;
    } else {
      var n := |actions| - 1;
      ActsAgree(v, start, trace, actions[..n]);
      var u := Acts(v, actions[..n]);
      ActAgrees(u, start, trace + ActionsTrace(v, actions[..n]), actions[n]);
      assert trace + ActionsTrace(v, actions) ==
             trace + ActionsTrace(v, actions[..n]) + ActionTrace(u, actions[n]);
    }
  }

  /** The statistics loop touches only the statistics it has passed. */
  lemma {:induction false} CollectFirstFrame(v: Log, now: Clock, n: nat, i: nat)
    requires n <= i < |v.stats|
    ensures CollectFirst(v, now, n).stats[i] == v.stats[i]
  {
    if n > 0 { CollectFirstFrame(v, now, n - 1, i); }
  }

  lemma CollectOneAgrees(v: Log, start: int, trace: seq<Event>, now: Clock, i: nat)
    requires Inv(v) && Agrees(v, start, trace) && i < |v.stats|
    ensures Inv(CollectOne(v, now, i))
    ensures Agrees(CollectOne(v, now, i), start, trace + StatisticTrace(v, now, i))
  {
    CollectOneInv(v, now, i);
    var s := v.stats[i];
    assert StatisticOk(v.events, s);
    assert trace + [] == trace;
    if Due(s) {
      RecordAgrees(v, start, trace, now, s.event, s.current);
    }
  }

  lemma StatisticTraceFrame(u: Log, v: Log, now: Clock, i: nat)
    requires Inv(u) && Inv(v) && i < |v.stats| && i < |u.stats| && u.stats[i] == v.stats[i]
    requires u.enabled == v.enabled && u.events == v.events
    ensures StatisticTrace(u, now, i) == StatisticTrace(v, now, i)
  {
    hide Inv;
  }

  lemma {:induction false} CollectFirstAgrees(v: Log, start: int, trace: seq<Event>, now: Clock, n: nat)
    requires Inv(v) && Agrees(v, start, trace) && n <= |v.stats|
    ensures Inv(CollectFirst(v, now, n))
    ensures Agrees(CollectFirst(v, now, n), start, trace + StatisticsTrace(v, now, n))
  {
    hide Agrees;
    hide Inv;
    hide CollectOne;
    hide StatisticTrace;
    if n == 0 {
      assert trace + [] == trace;
    } else {
      CollectFirstAgrees(v, start, trace, now, n - 1);
      var u := CollectFirst(v, now, n - 1);
      var before := trace + StatisticsTrace(v, now, n - 1);
      CollectFirstFrame(v, now, n - 1, n - 1);
      CollectOneAgrees(u, start, before, now, n - 1);
      StatisticTraceFrame(u, v, now, n - 1);
      Assoc(trace, StatisticsTrace(v, now, n - 1), StatisticTrace(v, now, n - 1));
    }
  }

  lemma Assoc<T>(a: seq<T>, b: seq<T>, c: seq<T>)
    ensures a + b + c == a + (b + c)
  {
  }

  lemma FinishAgrees(v: Log, start: int, trace: seq<Event>, now: Clock, took: int64)
    requires Inv(v) && Agrees(v, start, trace)
    ensures Inv(Finish(v, now, took))
    ensures Agrees(Finish(v, now, took), start,
                   trace + StatisticsTrace(v, now, |v.stats|) + Recorded(v, now, STATISTICS_COLLECTED, Int64(took)))
  {
    CollectFirstAgrees(v, start, trace, now, |v.stats|);
    var u := CollectFirst(v, now, |v.stats|);
    assert u.events[1] == u.events[..2][1];
    hide Agrees;
    RecordAgrees(u, start, trace + StatisticsTrace(v, now, |v.stats|), now, STATISTICS_COLLECTED, Int64(took));
  }

  lemma CollectAgrees(v: Log, start: int, trace: seq<Event>, now: Clock, took: int64, callbacks: seq<Action>)
    requires Inv(v) && Agrees(v, start, trace) && v.enabled
    ensures Agrees(Apply(v, Collect(now, took, callbacks)), start, trace + OpTrace(v, Collect(now, took, callbacks)))
  {
    hide Agrees;
    hide Inv;
    hide Finish;
    hide Recorded;
    hide StatisticsTrace;
    hide ActionsTrace;
    ActsAgree(v, start, trace, callbacks);
    var u := Acts(v, callbacks);
    FinishAgrees(u, start, trace + ActionsTrace(v, callbacks), now, took);
    StatisticsCollectedOk(u);
    Assoc(trace, ActionsTrace(v, callbacks), StatisticsTrace(u, now, |u.stats|));
    Assoc(trace, ActionsTrace(v, callbacks) + StatisticsTrace(u, now, |u.stats|),
          Recorded(u, now, STATISTICS_COLLECTED, Int64(took)));
  }

  lemma StatisticsCollectedOk(v: Log)
    requires Inv(v)
    ensures STATISTICS_COLLECTED < |v.events|
  {
  }

  lemma OpAgrees(v: Log, start: int, trace: seq<Event>, op: Op)
    requires Inv(v) && Agrees(v, start, trace)
    ensures Agrees(Apply(v, op), start, trace + OpTrace(v, op))
  {
    if op.Do? {
      ActAgrees(v, start, trace, op.action);
    } else if v.enabled {
      CollectAgrees(v, start, trace, op.now, op.took, op.callbacks);
    } else {
      assert trace + [] == trace;
    }
  }

  /** For every run, and whatever the clock does, the replay is Shown of the recorded history. */
  lemma {:induction false} ReplayLaw(start: Clock, ops: seq<Op>)
    ensures Inv(Init(start))
    ensures Agrees(Run(Init(start), ops), start, RunTrace(Init(start), ops))
  {
    InitInv(start);
    if ops != [] {
      var n := |ops| - 1;
      ReplayLaw(start, ops[..n]);
      hide Agrees;
      hide Inv;
      OpAgrees(Run(Init(start), ops[..n]), start, RunTrace(Init(start), ops[..n]), ops[n]);
    }
  }

  // ---- Drift -----------------------------------------------------------------

  predicate NoSetTime(trace: seq<Event>) {
    forall i :: 0 <= i < |trace| ==> !IsSetTime(trace[i])
  }

  /** The clock's backward steps since the last event that needed a perf.setTime record, summed. */
  function BackwardSteps(start: int, trace: seq<Event>): nat {
    if trace == [] then 0
    else
      var n := |trace| - 1;
      var prev := LastTime(start, trace[..n]);
      if NeedsEscape(prev, trace[n].time) then 0
      else BackwardSteps(start, trace[..n]) + if trace[n].time < prev then prev - trace[n].time else 0
  }

  lemma {:induction false} ClockDrift(start: int, trace: seq<Event>)
    requires NoSetTime(trace)
    ensures ClockAfter(start, trace) == LastTime(start, trace) + BackwardSteps(start, trace)
  {
    if trace != [] {
      ClockDrift(start, trace[..|trace| - 1]);
    }
  }

  /** Replayed time is true time plus the backward steps since the last escape, event by event. */
  lemma {:induction false} DriftLaw(start: int, trace: seq<Event>)
    requires NoSetTime(trace)
    ensures |Shown(start, trace)| == |trace|
    ensures forall i :: 0 <= i < |trace| ==>
      Shown(start, trace)[i] ==
      Event(trace[i].time + BackwardSteps(start, trace[..i + 1]), trace[i].def, trace[i].arg)
  {
    if trace != [] {
      var n := |trace| - 1;
      DriftLaw(start, trace[..n]);
      ClockDrift(start, trace);
      forall i | 0 <= i < |trace|
        ensures Shown(start, trace)[i] ==
                Event(trace[i].time + BackwardSteps(start, trace[..i + 1]), trace[i].def, trace[i].arg)
      {
        if i < n {
          assert trace[..n][..i + 1] == trace[..i + 1];
        } else {
          assert trace[..i + 1] == trace;
        }
      }
    }
  }

  /** The drift law for runs: no replayed event is early, and each is late by exactly its drift. */
  lemma RunDrift(start: Clock, ops: seq<Op>)
    requires Inv(Init(start)) && NoSetTime(RunTrace(Init(start), ops))
    ensures var trace := RunTrace(Init(start), ops);
            var replay := Replay(Run(Init(start), ops));
            && |replay| == |trace|
            && forall i :: 0 <= i < |trace| ==>
                 && replay[i].def == trace[i].def && replay[i].arg == trace[i].arg
                 && replay[i].time - trace[i].time == BackwardSteps(start, trace[..i + 1])
                 && replay[i].time >= trace[i].time
  {
    ReplayLaw(start, ops);
    DriftLaw(start, RunTrace(Init(start), ops));
  }

  // ---- Round trip -------------------------------------------------------------

  predicate TimesNeverStepBack(start: int, trace: seq<Event>) {
    forall i :: 0 <= i < |trace| ==> LastTime(start, trace[..i]) <= trace[i].time
  }

  lemma {:induction false} ShownLength(start: int, trace: seq<Event>)
    ensures |Shown(start, trace)| <= |trace|
    ensures |Shown(start, trace)| == |trace| ==> NoSetTime(trace)
  {
    if trace != [] {
      ShownLength(start, trace[..|trace| - 1]);
    }
  }

  lemma {:induction false} NoBackwardSteps(start: int, trace: seq<Event>)
    requires TimesNeverStepBack(start, trace)
    ensures BackwardSteps(start, trace) == 0
  {
    if trace != [] {
      var n := |trace| - 1;
      forall i | 0 <= i < n ensures LastTime(start, trace[..n][..i]) <= trace[..n][i].time {
        assert trace[..n][..i] == trace[..i];
      }
      NoBackwardSteps(start, trace[..n]);
    }
  }

  lemma PrefixNeverStepsBack(start: int, trace: seq<Event>, n: nat)
    requires n <= |trace| && TimesNeverStepBack(start, trace)
    ensures TimesNeverStepBack(start, trace[..n])
  {
    var p := trace[..n];
    forall j | 0 <= j < |p| ensures LastTime(start, p[..j]) <= p[j].time {
      assert p[..j] == trace[..j];
    }
  }

  lemma BackwardStepShows(start: int, trace: seq<Event>, i: nat)
    requires i < |trace| && LastTime(start, trace[..i]) > trace[i].time
    ensures BackwardSteps(start, trace[..i + 1]) > 0
  {
    assert trace[..i + 1][..i] == trace[..i];
  }

  lemma MonotoneIsShown(start: int, trace: seq<Event>)
    requires NoSetTime(trace) && TimesNeverStepBack(start, trace)
    ensures Shown(start, trace) == trace
  {
    hide Shown;
    hide BackwardSteps;
    hide NoSetTime;
    hide TimesNeverStepBack;
    DriftLaw(start, trace);
    forall i | 0 <= i < |trace| ensures Shown(start, trace)[i] == trace[i] {
      PrefixNeverStepsBack(start, trace, i + 1);
      NoBackwardSteps(start, trace[..i + 1]);
    }
  }

  lemma ShownIsIdentity(start: int, trace: seq<Event>)
    ensures Shown(start, trace) == trace <==> NoSetTime(trace) && TimesNeverStepBack(start, trace)
  {
    ShownLength(start, trace);
    if NoSetTime(trace) && TimesNeverStepBack(start, trace) {
      MonotoneIsShown(start, trace);
    } else if NoSetTime(trace) {
      DriftLaw(start, trace);
      hide Shown;
      hide BackwardSteps;
      hide NoSetTime;
      var i :| 0 <= i < |trace| && LastTime(start, trace[..i]) > trace[i].time;
      BackwardStepShows(start, trace, i);
      assert Shown(start, trace)[i].time != trace[i].time;
    }
  }

  /**
   * Round trip. For every run, the replay is exactly the recorded history
   * (order, times, definitions, arguments) if and only if no accepted event
   * has an earlier time than the one before it, and nobody logged
   * perf.setTime. PerfLogClock says when that is so.
   */
  lemma RoundTrip(start: Clock, ops: seq<Op>)
    requires Inv(Init(start))
    ensures var trace := RunTrace(Init(start), ops);
            Replay(Run(Init(start), ops)) == trace <==> NoSetTime(trace) && TimesNeverStepBack(start, trace)
  {
    ReplayLaw(start, ops);
    ShownIsIdentity(start, RunTrace(Init(start), ops));
  }

  lemma {:induction false} FindEventUnique(events: seq<EventDef>, i: nat)
    requires NamesDistinct(events) && i < |events|
    ensures FindEvent(events, events[i].name) == Some(i)
  {
    if i < |events| - 1 { FindEventUnique(events[..|events| - 1], i); }
  }

  /**
   * Where the round trip fails: perf.setTime is a public event name, so on any
   * enabled log a caller can log it, and the replay loses that event.
   */
  lemma UserSetTimeIsLost(v: Log, now: Clock, x: int64)
    requires Inv(v) && v.enabled
    ensures var a := LogAction(now, BUILTIN[0].name, Int64(x));
            && ActionTrace(v, a) == [Event(now, BUILTIN[0], Int64(x))]
            && Inv(Act(v, a)) && Replay(Act(v, a)) == Replay(v)
  {
    hide Inv;
    hide FindEvent;
    hide NamesDistinct;
    hide Replay;
    hide RecordEvent;
    SetTimeDefined(v);
    FindEventUnique(v.events, 0);
    ActInv(v, LogAction(now, BUILTIN[0].name, Int64(x)));
    RecordEventReplay(v, now, 0, Int64(x));
    assert Replay(v) + [] == Replay(v);
  }

  lemma SetTimeDefined(v: Log)
    requires Inv(v)
    ensures 0 < |v.events| <= MAX_EVENTS && v.events[0] == BUILTIN[0] && NamesDistinct(v.events) && RecordsOk(v)
  {
    assert v.events[0] == v.events[..2][0];
  }

  // ---- Packing ----------------------------------------------------------------

  function TotalSize(blocks: seq<seq<Record>>): nat {
    if blocks == [] then 0 else TotalSize(blocks[..|blocks| - 1]) + BlockSize(blocks[|blocks| - 1])
  }

  lemma {:induction false} TotalSizeUpper(blocks: seq<seq<Record>>)
    requires forall b :: 0 <= b < |blocks| ==> BlockSize(blocks[b]) <= BLOCK_SIZE
    ensures TotalSize(blocks) <= BLOCK_SIZE * |blocks|
  {
    if blocks != [] { TotalSizeUpper(blocks[..|blocks| - 1]); }
  }

  /** Twice the bytes in use exceed the capacity of all blocks but one. A single block may be nearly empty. */
  lemma {:induction false} TotalSizeLower(blocks: seq<seq<Record>>)
    requires Packed(blocks) && blocks != []
    ensures 2 * TotalSize(blocks) > BLOCK_SIZE * (|blocks| - 1)
  {
    var n := |blocks|;
    var last := blocks[n - 1];
    assert BlockSize(last) > 0;
    if n >= 2 {
      assert TotalSize(blocks) == TotalSize(blocks[..n - 1]) + BlockSize(last);
      assert blocks[..n - 1][..n - 2] == blocks[..n - 2];
      assert TotalSize(blocks[..n - 1]) == TotalSize(blocks[..n - 2]) + BlockSize(blocks[n - 2]);
      if n >= 3 { TotalSizeLower(blocks[..n - 2]); }
    }
  }

  /**
   * Next-fit bound: after any run, the chain has at most twice as many blocks
   * as any other way of storing the same number of bytes in blocks of
   * BLOCK_SIZE.
   */
  lemma PackingBound(start: Clock, ops: seq<Op>, other: seq<seq<Record>>)
    requires Inv(Init(start))
    requires forall b :: 0 <= b < |other| ==> BlockSize(other[b]) <= BLOCK_SIZE
    requires TotalSize(other) == TotalSize(Run(Init(start), ops).blocks)
    ensures |Run(Init(start), ops).blocks| <= 2 * |other|
  {
    var blocks := Run(Init(start), ops).blocks;
    assert Packed(blocks);
    TotalSizeUpper(other);
    if blocks != [] { TotalSizeLower(blocks); }
  }
}
