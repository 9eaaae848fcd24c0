/**
 * The round trip in terms of the clock. A collection reads the clock before
 * its callbacks run and stamps what it records after them with that reading,
 * so that a clock which never runs backwards is not enough.
 */
module PerfLogClock {
  import opened PerfLogFormat
  import opened PerfLogModel
  import opened PerfLogHistory
  import opened PerfLogInvariant
  import opened PerfLogReplay

  // ---- Readings -----------------------------------------------------------------

  function LastReading(start: int, readings: seq<int>): int {
    if readings == [] then start else readings[|readings| - 1]
  }

  /** No reading is earlier than the one before it. */
  predicate Forward(start: int, readings: seq<int>) {
    readings == [] ||
    (Forward(start, readings[..|readings| - 1])
     && LastReading(start, readings[..|readings| - 1]) <= readings[|readings| - 1])
  }

  /** An event is looked up before the clock is read. */
  function ActionReadings(v: Log, a: Action): seq<int>
    requires Inv(v)
  {
    if a.LogAction? && LookupEvent(v, a.name, a.arg.Sig()).Some? then [a.now] else []
  }

  function ActionsReadings(v: Log, actions: seq<Action>): seq<int>
    requires Inv(v)
  {
    if actions == [] then []
    else
      var n := |actions| - 1;
      ActionsReadings(v, actions[..n]) + ActionReadings(Acts(v, actions[..n]), actions[n])
  }

  /** A collection reads the clock first, then in its callbacks, then for the time it took. */
  function OpReadings(v: Log, op: Op): seq<int>
    requires Inv(v)
  {
    match op
    case Do(a) => ActionReadings(v, a)
    case Collect(now, took, callbacks) =>
      [now] + if v.enabled then ActionsReadings(v, callbacks) + [now + took] else []
  }

  /** All readings of the clock in a run */
  function RunReadings(v: Log, ops: seq<Op>): seq<int>
    requires Inv(v)
  {
    if ops == [] then []
    else
      var n := |ops| - 1;
      RunReadings(v, ops[..n]) + OpReadings(Run(v, ops[..n]), ops[n])
  }

  // ---- The condition ---------------------------------------------------------------

  /** The j-th callback action logs an event that is accepted, later than the collection began. */
  ghost predicate LateAt(v: Log, now: int, actions: seq<Action>, j: nat)
    requires Inv(v) && j < |actions|
  {
    ActionTrace(Acts(v, actions[..j]), actions[j]) != [] && actions[j].now > now
  }

  /** A collection that still records after its callbacks, one of which has logged a later event. */
  ghost predicate LateCallback(v: Log, op: Op)
    requires Inv(v)
  {
    && op.Collect? && v.enabled && Acts(v, op.callbacks).enabled
    && exists j :: 0 <= j < |op.callbacks| && LateAt(v, op.now, op.callbacks, j)
  }

  // ---- Sequences of times --------------------------------------------------------------

  function Times(trace: seq<Event>): seq<int> {
    if trace == [] then [] else Times(trace[..|trace| - 1]) + [trace[|trace| - 1].time]
  }

  lemma {:induction false} TimesAppend(a: seq<Event>, b: seq<Event>)
    ensures Times(a + b) == Times(a) + Times(b)
  {
    if b == [] {
      assert a + b == a;
    } else {
      var n := |b| - 1;
      assert (a + b)[..|a + b| - 1] == a + b[..n];
      TimesAppend(a, b[..n]);
    }
  }

  lemma {:induction false} TimesAre(start: int, trace: seq<Event>)
    ensures LastReading(start, Times(trace)) == LastTime(start, trace)
    ensures Times(trace) == [] <==> trace == []
    ensures Forward(start, Times(trace)) <==> TimesNeverStepBack(start, trace)
  {
    hide TimesNeverStepBack;
    if trace == [] {
      NothingStepsBack(start);
    } else {
      var n := |trace| - 1;
      TimesAre(start, trace[..n]);
      NeverStepsBackSnoc(start, trace);
      assert Times(trace)[..|Times(trace)| - 1] == Times(trace[..n]);
    }
  }

  lemma NothingStepsBack(start: int)
    ensures TimesNeverStepBack(start, [])
  {
  }

  lemma NeverStepsBackSnoc(start: int, trace: seq<Event>)
    requires trace != []
    ensures var front := trace[..|trace| - 1];
            TimesNeverStepBack(start, trace) <==>
            TimesNeverStepBack(start, front) && LastTime(start, front) <= trace[|trace| - 1].time
  {
    hide LastTime;
    var n := |trace| - 1;
    if TimesNeverStepBack(start, trace) {
      PrefixNeverStepsBack(start, trace, n);
    }
    if TimesNeverStepBack(start, trace[..n]) && LastTime(start, trace[..n]) <= trace[n].time {
      forall i | 0 <= i < |trace| ensures LastTime(start, trace[..i]) <= trace[i].time {
        if i < n { assert trace[..n][..i] == trace[..i] && trace[..n][i] == trace[i]; }
      }
    }
  }

  lemma {:induction false} ForwardAppend(start: int, a: seq<int>, b: seq<int>)
    ensures LastReading(start, a + b) == LastReading(LastReading(start, a), b)
    ensures Forward(start, a + b) <==> Forward(start, a) && Forward(LastReading(start, a), b)
  {
    if b == [] {
      assert a + b == a;
    } else {
      var n := |b| - 1;
      assert (a + b)[..|a + b| - 1] == a + b[..n];
      ForwardAppend(start, a, b[..n]);
    }
  }

  lemma {:induction false} ForwardGrows(start: int, readings: seq<int>)
    requires Forward(start, readings)
    ensures start <= LastReading(start, readings)
  {
    if readings != [] { ForwardGrows(start, readings[..|readings| - 1]); }
  }

  lemma {:induction false} ForwardEarlier(start: int, earlier: int, readings: seq<int>)
    requires Forward(start, readings) && earlier <= start
    ensures Forward(earlier, readings) && LastReading(earlier, readings) <= LastReading(start, readings)
  {
    if readings != [] { ForwardEarlier(start, earlier, readings[..|readings| - 1]); }
  }

  lemma {:induction false} ForwardConstant(start: int, readings: seq<int>, now: int)
    requires forall t :: t in readings ==> t == now
    ensures Forward(start, readings) <==> readings == [] || start <= now
    ensures LastReading(start, readings) == if readings == [] then start else now
  {
    if readings != [] {
      var n := |readings| - 1;
      assert readings[n] in readings;
      forall t | t in readings[..n] ensures t == now { assert t in readings; }
      ForwardConstant(start, readings[..n], now);
    }
  }

  // ---- Callbacks --------------------------------------------------------------------------

  lemma {:induction false} CallbackTimes(v: Log, start: int, actions: seq<Action>)
    requires Inv(v) && Forward(start, ActionsReadings(v, actions))
    ensures Forward(start, Times(ActionsTrace(v, actions)))
    ensures LastReading(start, Times(ActionsTrace(v, actions))) <= LastReading(start, ActionsReadings(v, actions))
  {
    hide Inv;
    hide Acts;
    hide LookupEvent;
    if actions != [] {
      var n := |actions| - 1;
      var front, u := actions[..n], Acts(v, actions[..n]);
      ForwardAppend(start, ActionsReadings(v, front), ActionReadings(u, actions[n]));
      CallbackTimes(v, start, front);
      TimesAppend(ActionsTrace(v, front), ActionTrace(u, actions[n]));
      ForwardAppend(start, Times(ActionsTrace(v, front)), Times(ActionTrace(u, actions[n])));
      OneTime(u, actions[n]);
      ForwardOne(LastReading(start, ActionsReadings(v, front)), ActionReadings(u, actions[n]));
      ForwardOne(LastReading(start, Times(ActionsTrace(v, front))), Times(ActionTrace(u, actions[n])));
    }
  }

  lemma ForwardOne(start: int, readings: seq<int>)
    requires |readings| <= 1
    ensures Forward(start, readings) <==> readings == [] || start <= readings[0]
  {
    if readings != [] { assert readings[..0] == []; }
  }

  /** An action stores at most one event, at the time it has read. */
  lemma OneTime(v: Log, a: Action)
    requires Inv(v)
    ensures |ActionReadings(v, a)| <= 1
    ensures Times(ActionTrace(v, a)) == if ActionTrace(v, a) == [] then [] else [a.now]
    ensures ActionTrace(v, a) != [] ==> a.LogAction? && ActionReadings(v, a) == [a.now]
  {
    var t := ActionTrace(v, a);
    if t != [] { assert t[..0] == []; }
  }

  lemma LateInFront(v: Log, now: int, actions: seq<Action>, j: nat, n: nat)
    requires Inv(v) && j < n <= |actions|
    ensures LateAt(v, now, actions[..n], j) <==> LateAt(v, now, actions, j)
  {
    assert actions[..n][..j] == actions[..j];
  }

  lemma LateLast(v: Log, now: int, actions: seq<Action>)
    requires Inv(v) && actions != []
    ensures var n := |actions| - 1;
            LateAt(v, now, actions, n) <==>
            ActionTrace(Acts(v, actions[..n]), actions[n]) != [] && actions[n].now > now
  {
  }

  lemma NoTimes(v: Log, actions: seq<Action>)
    requires Inv(v) && actions == []
    ensures Times(ActionsTrace(v, actions)) == []
  {
  }

  /** The callbacks end no later than the collection began exactly when none of their events is late. */
  lemma {:induction false} LateMeansLater(v: Log, now: int, actions: seq<Action>)
    requires Inv(v) && Forward(now, Times(ActionsTrace(v, actions)))
    ensures LastReading(now, Times(ActionsTrace(v, actions))) <= now <==>
            forall j :: 0 <= j < |actions| ==> !LateAt(v, now, actions, j)
  {
    hide Inv;
    hide Acts;
    hide ActionTrace;
    hide ActionReadings;
    hide Times;
    hide LateAt;
    hide Forward;
    hide LookupEvent;
    if actions != [] {
      var n := |actions| - 1;
      var front, u := actions[..n], Acts(v, actions[..n]);
      OneTime(u, actions[n]);
      TimesAppend(ActionsTrace(v, front), ActionTrace(u, actions[n]));
      ForwardAppend(now, Times(ActionsTrace(v, front)), Times(ActionTrace(u, actions[n])));
      ForwardOne(LastReading(now, Times(ActionsTrace(v, front))), Times(ActionTrace(u, actions[n])));
      LateMeansLater(v, now, front);
      forall j | 0 <= j < n ensures LateAt(v, now, front, j) <==> LateAt(v, now, actions, j) {
        LateInFront(v, now, actions, j, n);
      }
      LateLast(v, now, actions);
    } else {
      NoTimes(v, actions);
    }
  }

  // ---- Collections ------------------------------------------------------------------------------

  lemma {:induction false} StatisticsTimes(v: Log, now: Clock, n: nat)
    requires Inv(v) && n <= |v.stats|
    ensures forall t :: t in Times(StatisticsTrace(v, now, n)) ==> t == now
    ensures !v.enabled ==> StatisticsTrace(v, now, n) == []
  {
    if n > 0 {
      StatisticsTimes(v, now, n - 1);
      var e := StatisticTrace(v, now, n - 1);
      TimesAppend(StatisticsTrace(v, now, n - 1), e);
      if e != [] { assert e[..0] == []; }
    }
  }

  /** What a collection records after its callbacks is stamped with its beginning. */
  lemma FinishTimes(v: Log, now: Clock, took: int64)
    requires Inv(v)
    ensures STATISTICS_COLLECTED < |v.events|
    ensures var t := StatisticsTrace(v, now, |v.stats|) + Recorded(v, now, STATISTICS_COLLECTED, Int64(took));
            (forall x :: x in Times(t) ==> x == now) && (t == [] <==> !v.enabled) && (Times(t) == [] <==> t == [])
  {
    var s, c := StatisticsTrace(v, now, |v.stats|), Recorded(v, now, STATISTICS_COLLECTED, Int64(took));
    StatisticsTimes(v, now, |v.stats|);
    TimesAppend(s, c);
    if c != [] { assert c[..0] == []; }
    TimesAre(now, s + c);
  }

  lemma CollectTimes(v: Log, now: Clock, took: int64, callbacks: seq<Action>, last: int, clock: int)
    requires Inv(v) && v.enabled && last <= clock && Forward(clock, OpReadings(v, Collect(now, took, callbacks)))
    ensures var op := Collect(now, took, callbacks);
            && (Forward(last, Times(OpTrace(v, op))) <==> !LateCallback(v, op))
            && LastReading(last, Times(OpTrace(v, op))) <= LastReading(clock, OpReadings(v, op))
  {
    hide Inv;
    hide Acts;
    hide Times;
    hide Forward;
    hide ActionsTrace;
    hide ActionsReadings;
    hide StatisticsTrace;
    hide Recorded;
    hide LateAt;
    var u, a := Acts(v, callbacks), ActionsTrace(v, callbacks);
    var readings := ActionsReadings(v, callbacks);
    FinishTimes(u, now, took);
    var s, c := StatisticsTrace(u, now, |u.stats|), Recorded(u, now, STATISTICS_COLLECTED, Int64(took));
    var tail := Times(s + c);
    assert OpReadings(v, Collect(now, took, callbacks)) == [now] + (readings + [now + took]);
    assert OpTrace(v, Collect(now, took, callbacks)) == a + (s + c);
    ForwardAppend(clock, [now], readings + [now + took]);
    ForwardAppend(now, readings, [now + took]);
    ForwardOne(clock, [now]);
    ForwardOne(LastReading(now, readings), [now + took]);
    ForwardGrows(now, readings);
    CallbackTimes(v, now, callbacks);
    LateMeansLater(v, now, callbacks);
    ForwardEarlier(now, last, Times(a));
    TimesAppend(a, s + c);
    ForwardAppend(last, Times(a), tail);
    ForwardConstant(LastReading(last, Times(a)), tail, now);
  }

  lemma OpTimes(v: Log, op: Op, last: int, clock: int)
    requires Inv(v) && last <= clock && Forward(clock, OpReadings(v, op))
    ensures Forward(last, Times(OpTrace(v, op))) <==> !LateCallback(v, op)
    ensures LastReading(last, Times(OpTrace(v, op))) <= LastReading(clock, OpReadings(v, op))
  {
    hide Inv;
    hide ActionTrace;
    hide ActionReadings;
    match op
    case Do(a) =>
      OneTime(v, a);
      ForwardOne(clock, ActionReadings(v, a));
      ForwardOne(last, Times(ActionTrace(v, a)));
    case Collect(now, took, callbacks) =>
      if v.enabled {
        CollectTimes(v, now, took, callbacks, last, clock);
      } else {
        ForwardOne(clock, [now]);
      }
  }

  lemma {:induction false} RunTimes(v: Log, start: int, ops: seq<Op>)
    requires Inv(v) && Forward(start, RunReadings(v, ops))
    ensures Forward(start, Times(RunTrace(v, ops))) <==>
            forall k :: 0 <= k < |ops| ==> !LateCallback(Run(v, ops[..k]), ops[k])
    ensures LastReading(start, Times(RunTrace(v, ops))) <= LastReading(start, RunReadings(v, ops))
  {
    hide Inv;
    hide Run;
    hide LateCallback;
    hide OpTrace;
    hide OpReadings;
    if ops != [] {
      var n := |ops| - 1;
      var front, u := ops[..n], Run(v, ops[..n]);
      ForwardAppend(start, RunReadings(v, front), OpReadings(u, ops[n]));
      RunTimes(v, start, front);
      OpTimes(u, ops[n], LastReading(start, Times(RunTrace(v, front))), LastReading(start, RunReadings(v, front)));
      TimesAppend(RunTrace(v, front), OpTrace(u, ops[n]));
      ForwardAppend(start, Times(RunTrace(v, front)), Times(OpTrace(u, ops[n])));
      forall k | 0 <= k < n
        ensures LateCallback(Run(v, front[..k]), front[k]) <==> LateCallback(Run(v, ops[..k]), ops[k])
      {
        assert front[..k] == ops[..k];
      }
    }
  }

  // ---- The theorem -------------------------------------------------------------------------------

  /**
   * For every run whose clock readings never run backwards, the replay is the
   * recorded history if and only if perf.setTime was not accepted as an event
   * and no collection that still records after its callbacks had an event
   * accepted from a callback at a later time than its own first reading.
   */
  lemma ForwardClockRoundTrip(start: Clock, ops: seq<Op>)
    requires Inv(Init(start)) && Forward(start, RunReadings(Init(start), ops))
    ensures Replay(Run(Init(start), ops)) == History(ops) <==>
            && NoSetTime(History(ops))
            && forall k :: 0 <= k < |ops| ==> !LateCallback(Run(Init(start), ops[..k]), ops[k])
  {
    hide Inv;
    hide Run;
    hide Replay;
    hide LateCallback;
    hide History;
    var trace := RunTrace(Init(start), ops);
    RunMatches(start, ops);
    RoundTrip(start, ops);
    TimesAre(start, trace);
    RunTimes(Init(start), start, ops);
  }

  /** A callback that logs an event of no argument or a number after some time has passed is late. */
  lemma LateIsEnough(v: Log, now: Clock, later: Clock, took: int64, name: string, arg: Arg)
    requires Inv(v) && v.enabled && now < later
    requires RecordSize(arg) <= BLOCK_SIZE && LookupEvent(v, name, arg.Sig()).Some?
    ensures LateCallback(v, Collect(now, took, [LogAction(later, name, arg)]))
    ensures ActionsReadings(v, [LogAction(later, name, arg)]) == [later]
  {
    hide LookupEvent;
    var a := LogAction(later, name, arg);
    assert [a][..0] == [];
    assert Acts(v, []) == v && Acts(v, [a]) == Act(v, a);
    assert LateAt(v, now, [a], 0);
    assert ActionsReadings(v, []) == [] && [] + [later] == [later];
  }

  /** The first collection of a log that has just been enabled, with one callback that logs something */
  function Witness(now: Clock, later: Clock, took: int64): seq<Op> {
    [Do(EnableAction(true)), Collect(now, took, [LogAction(later, BUILTIN[1].name, Int64(0))])]
  }

  /** A clock that runs forward and a history that does not replay: the events of the collection change their times. */
  lemma ForwardIsNotEnough(start: Clock, now: Clock, later: Clock, took: int64)
    requires Inv(Init(start)) && start <= now < later <= now + took
    ensures var ops := Witness(now, later, took);
            Forward(start, RunReadings(Init(start), ops)) && Replay(Run(Init(start), ops)) != History(ops)
  {
    var ops := Witness(now, later, took);
    var v := Init(start);
    var u := v.(enabled := true);
    WitnessRun(start, now, later, took);
    hide Run;
    hide RunReadings;
    hide Replay;
    hide LateCallback;
    assert LateCallback(Run(v, ops[..1]), ops[1]);
    ForwardClockRoundTrip(start, ops);
  }

  /** The log after the first step of the witness, and what the collection then reads */
  lemma WitnessEnabled(start: Clock, now: Clock, later: Clock, took: int64)
    requires Inv(Init(start))
    ensures var ops := Witness(now, later, took); var v := Init(start);
            Run(v, ops[..1]) == v.(enabled := true) && RunReadings(v, ops) == OpReadings(v.(enabled := true), ops[1])
  {
    hide Inv;
    hide FindEvent;
    var ops := Witness(now, later, took);
    var v := Init(start);
    assert ops[..1] == [ops[0]] && ops[..1][..0] == [];
    assert Run(v, []) == v && RunReadings(v, []) == [];
    assert Run(v, ops[..1]) == Apply(v, ops[0]);
    assert OpReadings(v, ops[0]) == [];
    assert RunReadings(v, ops[..1]) == [] + [];
    assert RunReadings(v, ops) == [] + OpReadings(v.(enabled := true), ops[1]);
  }

  lemma WitnessRun(start: Clock, now: Clock, later: Clock, took: int64)
    requires Inv(Init(start)) && start <= now < later <= now + took
    ensures var ops := Witness(now, later, took); var v := Init(start);
            LateCallback(Run(v, ops[..1]), ops[1]) && Forward(start, RunReadings(v, ops))
  {
    hide LateCallback;
    hide FindEvent;
    hide Run;
    hide RunReadings;
    hide ActionsReadings;
    hide Forward;
    var ops := Witness(now, later, took);
    var v := Init(start);
    WitnessEnabled(start, now, later, took);
    var u := Run(v, ops[..1]);
    assert NamesDistinct(u.events);
    FindEventUnique(u.events, 1);
    LateIsEnough(u, now, later, took, BUILTIN[1].name, Int64(0));
    assert RunReadings(v, ops) == [now] + ([later] + [now + took]);
    ForwardAppend(start, [now], [later] + [now + took]);
    ForwardAppend(now, [later], [now + took]);
    ForwardOne(start, [now]);
    ForwardOne(now, [later]);
    ForwardOne(later, [now + took]);
  }
}
