/**
 * Unchanged statistics are not written again. This module shows that nothing
 * is lost by it: at every perf.statisticsCollected record of a replay, the
 * last replayed value of a statistic is its value at that collection.
 */
module PerfLogStatistics {
  import opened Wrappers
  import opened PerfLogFormat
  import opened PerfLogModel
  import opened PerfLogHistory
  import opened PerfLogInvariant

  /** The argument of the last event with the given name. */
  function LastValue(events: seq<Event>, name: string): Option<Arg> {
    if events == [] then None
    else if events[|events| - 1].def.name == name then Some(events[|events| - 1].arg)
    else LastValue(events[..|events| - 1], name)
  }

  lemma LastValueSnoc(events: seq<Event>, e: Event, name: string)
    ensures LastValue(events + [e], name) == if e.def.name == name then Some(e.arg) else LastValue(events, name)
  {
    assert (events + [e])[..|events|] == events;
  }

  lemma {:induction false} LastValueNone(events: seq<Event>, name: string)
    requires forall e :: e in events ==> e.def.name != name
    ensures LastValue(events, name).None?
  {
    if events != [] { LastValueNone(events[..|events| - 1], name); }
  }

  function NameOf(v: Log, i: nat): string
    requires i < |v.stats| && v.stats[i].event < |v.events|
  {
    v.events[v.stats[i].event].name
  }

  /** The replay's last word on statistic i is what the log remembers having written. */
  ghost predicate FaithfulAt(v: Log, replay: seq<Event>, i: nat)
    requires i < |v.stats| && v.stats[i].event < |v.events|
  {
    LastValue(replay, NameOf(v, i)) == if v.stats[i].recorded then Some(v.stats[i].last) else None
  }

  /** The events of a replay that are due to definitions of the log. */
  ghost predicate Known(v: Log, replay: seq<Event>) {
    forall e :: e in replay ==> e.def in v.events
  }

  ghost predicate FaithfulTo(v: Log, replay: seq<Event>)
    requires Inv(v)
  {
    EventsInRange(v);
    Known(v, replay) && forall i :: 0 <= i < |v.stats| ==> FaithfulAt(v, replay, i)
  }

  ghost function ReplayOf(v: Log): seq<Event>
    requires Inv(v)
  {
    Replay(v)
  }

  ghost predicate Faithful(v: Log)
    requires Inv(v)
  {
    FaithfulTo(v, ReplayOf(v))
  }

  lemma EventsInRange(v: Log)
    requires Inv(v)
    ensures forall i :: 0 <= i < |v.stats| ==> 2 <= v.stats[i].event < |v.events|
    ensures forall s :: s in v.stats ==> s.event < |v.events|
    ensures StatisticsOk(v)
    ensures 2 <= |v.events| && v.events[0] == BUILTIN[0] && v.events[1] == BUILTIN[1]
    ensures forall i :: 0 <= i < |v.stats| ==> RecordOk(v.events, Record(0, v.stats[i].event, v.stats[i].current))
  {
    assert v.events[0] == v.events[..2][0] && v.events[1] == v.events[..2][1];
    forall i | 0 <= i < |v.stats|
      ensures 2 <= v.stats[i].event < |v.events|
      ensures RecordOk(v.events, Record(0, v.stats[i].event, v.stats[i].current))
    {
      assert StatisticOk(v.events, v.stats[i]);
    }
  }

  /** The condition on callers: a statistic's name is not logged as an ordinary event. */
  predicate Respects(v: Log, a: Action)
    requires forall s :: s in v.stats ==> s.event < |v.events|
  {
    a.LogAction? ==> FindStatistic(v.stats, v.events, a.name).None?
  }

  ghost predicate CallbacksRespect(v: Log, actions: seq<Action>)
    requires Inv(v)
  {
    forall k :: 0 <= k < |actions| ==> CallbackAt(v, actions, k)
  }

  ghost predicate CallbackAt(v: Log, actions: seq<Action>, k: nat)
    requires Inv(v) && k < |actions|
  {
    var u := Acts(v, actions[..k]);
    EventsInRange(u);
    Respects(u, actions[k])
  }

  /** The log is on, or there is nothing to write. */
  ghost predicate LosesNothing(v: Log) {
    v.enabled || forall i :: 0 <= i < |v.stats| ==> !Due(v.stats[i])
  }

  ghost predicate OpRespects(v: Log, op: Op)
    requires Inv(v)
  {
    EventsInRange(v);
    match op
    case Do(a) => Respects(v, a)
    case Collect(_, _, callbacks) => v.enabled ==> CallbacksRespect(v, callbacks) && LosesNothing(Acts(v, callbacks))
  }

  ghost predicate RunRespects(v: Log, ops: seq<Op>)
    requires Inv(v)
  {
    forall k :: 0 <= k < |ops| ==> OpRespects(Run(v, ops[..k]), ops[k])
  }

  // ---- One step ---------------------------------------------------------------

  /** Appending an event with a foreign name changes no statistic's last value. */
  lemma ForeignEvent(v: Log, replay: seq<Event>, e: Event)
    requires Inv(v) && FaithfulTo(v, replay) && e.def in v.events
    requires forall i :: 0 <= i < |v.stats| && v.stats[i].event < |v.events| ==> NameOf(v, i) != e.def.name
    ensures FaithfulTo(v, replay + [e])
  {
    hide Inv;
    hide LastValue;
    EventsInRange(v);
    forall i | 0 <= i < |v.stats| ensures FaithfulAt(v, replay + [e], i) {
      assert FaithfulAt(v, replay, i);
      LastValueSnoc(replay, e, NameOf(v, i));
    }
  }

  /** What matters for Faithful is the definitions and the statistics. */
  lemma FaithfulFrame(v: Log, w: Log, replay: seq<Event>)
    requires Inv(v) && Inv(w) && w.events == v.events && w.stats == v.stats && FaithfulTo(v, replay)
    ensures FaithfulTo(w, replay)
  {
    hide Inv;
    hide LastValue;
    EventsInRange(v);
    forall i | 0 <= i < |w.stats| ensures w.stats[i].event < |w.events| && FaithfulAt(w, replay, i) {
      assert FaithfulAt(v, replay, i);
    }
  }

  function Emission(v: Log, now: Clock, id: uint16, arg: Arg): seq<Event>
    requires id < |v.events|
  {
    if Accepts(v, arg) then Emitted(v, now, id, arg) else []
  }

  lemma RecordSummary(v: Log, now: Clock, id: uint16, arg: Arg)
    requires Inv(v) && RecordOk(v.events, Record(0, id, arg))
    ensures var w := RecordEvent(v, now, id, arg);
            && Inv(w) && w.events == v.events && w.stats == v.stats && w.enabled == v.enabled
            && ReplayOf(w) == ReplayOf(v) + Emission(v, now, id, arg)
  {
    if Accepts(v, arg) {
      RecordEventReplay(v, now, id, arg);
    } else {
      assert Replay(v) + [] == Replay(v);
    }
  }

  /** Recording an event that is not a statistic. */
  lemma RecordFaithful(v: Log, now: Clock, id: uint16, arg: Arg)
    requires Inv(v) && Faithful(v) && RecordOk(v.events, Record(0, id, arg))
    requires forall i :: 0 <= i < |v.stats| && v.stats[i].event < |v.events| ==> NameOf(v, i) != v.events[id].name
    ensures Inv(RecordEvent(v, now, id, arg)) && Faithful(RecordEvent(v, now, id, arg))
  {
    hide Inv;
    hide ReplayOf;
    hide RecordEvent;
    hide FaithfulTo;
    hide NextClock;
    hide Accepts;
    RecordSummary(v, now, id, arg);
    var w := RecordEvent(v, now, id, arg);
    var more := Emission(v, now, id, arg);
    if more == [] {
      assert ReplayOf(v) + more == ReplayOf(v);
    } else {
      ForeignEvent(v, ReplayOf(v), more[0]);
      assert more == [more[0]];
    }
    FaithfulFrame(v, w, ReplayOf(w));
  }

  // ---- Definitions and updates --------------------------------------------------

  lemma DefineFaithful(v: Log, name: string, signature: string)
    requires Inv(v) && Faithful(v)
    ensures var (w, id) := Define(v, name, signature);
            && Inv(w) && Faithful(w)
            && (id.Some? ==>
                  LastValue(ReplayOf(w), name).None? && id.value < |w.events| && w.events[id.value].name == name)
  {
    hide Inv;
    hide Replay;
    hide EndClock;
    hide LastValue;
    DefineInv(v, name, signature);
    var (w, id) := Define(v, name, signature);
    EventsInRange(v);
    EventsInRange(w);
    SameReplay(v, w);
    if id.Some? {
      var r := ReplayOf(v);
      assert forall d :: d in v.events ==> d.name != name;
      LastValueNone(r, name);
      forall i | 0 <= i < |w.stats| ensures FaithfulAt(w, r, i) { assert FaithfulAt(v, r, i); }
    }
  }

  lemma SameReplay(v: Log, w: Log)
    requires Inv(v) && Inv(w) && Replay(v) == Replay(w)
    ensures ReplayOf(v) == ReplayOf(w)
  {
  }

  lemma AddStatisticFaithful(v: Log, id: uint16, zero: Arg)
    requires Inv(v) && Faithful(v) && id < |v.events| && LastValue(ReplayOf(v), v.events[id].name).None?
    requires Inv(AddStatistic(v, id, zero)) && ReplayOf(AddStatistic(v, id, zero)) == ReplayOf(v)
    ensures Faithful(AddStatistic(v, id, zero))
  {
    hide Inv;
    hide ReplayOf;
    hide LastValue;
    var w := AddStatistic(v, id, zero);
    EventsInRange(v);
    EventsInRange(w);
    forall i | 0 <= i < |w.stats| ensures FaithfulAt(w, ReplayOf(w), i) {
      if i < |v.stats| { assert FaithfulAt(v, ReplayOf(v), i); }
    }
  }

  lemma DefineStatisticFaithful(v: Log, name: string, signature: string)
    requires Inv(v) && Faithful(v)
    ensures Inv(DefineStatistic(v, name, signature)) && Faithful(DefineStatistic(v, name, signature))
  {
    hide Inv;
    hide Replay;
    hide EndClock;
    hide Faithful;
    hide LastValue;
    hide Define;
    hide AddStatistic;
    DefineStatisticInv(v, name, signature);
    DefineFaithful(v, name, signature);
    DefineInv(v, name, signature);
    var (u, id) := Define(v, name, signature);
    var w := DefineStatistic(v, name, signature);
    if (signature == "i" || signature == "x") && id.Some? {
      SameReplay(u, w);
      AddStatisticFaithful(u, id.value, if signature == "i" then Int(0) else Int64(0));
    }
  }

  lemma UpdateFaithful(v: Log, name: string, value: Arg)
    requires Inv(v) && Faithful(v) && StatisticsOk(v)
    ensures Inv(Update(v, name, value)) && Faithful(Update(v, name, value))
  {
    hide Inv;
    hide Replay;
    hide EndClock;
    hide LastValue;
    hide FindStatistic;
    hide StatisticsOk;
    UpdateInv(v, name, value);
    var w := Update(v, name, value);
    EventsInRange(v);
    EventsInRange(w);
    SameReplay(v, w);
    forall i | 0 <= i < |w.stats| ensures FaithfulAt(w, ReplayOf(w), i) {
      assert FaithfulAt(v, ReplayOf(v), i);
    }
  }

  lemma LogFaithful(v: Log, now: Clock, name: string, arg: Arg)
    requires Inv(v) && Faithful(v)
    requires (forall s :: s in v.stats ==> s.event < |v.events|) && FindStatistic(v.stats, v.events, name).None?
    ensures Inv(LogEvent(v, now, name, arg)) && Faithful(LogEvent(v, now, name, arg))
  {
    hide Inv;
    hide Faithful;
    hide RecordEvent;
    hide FindStatistic;
    hide FindEvent;
    EventsInRange(v);
    InvBounds(v);
    var id := LookupEvent(v, name, arg.Sig());
    if id.Some? { RecordFaithful(v, now, id.value, arg); }
  }

  lemma InvBounds(v: Log)
    requires Inv(v)
    ensures |v.events| <= MAX_EVENTS
  {
  }

  lemma EnableFaithful(v: Log, on: bool)
    requires Inv(v) && Faithful(v)
    ensures Inv(v.(enabled := on)) && Faithful(v.(enabled := on))
  {
    hide LastValue;
    hide StatisticOk;
    hide RecordOk;
    hide ReplayEvents;
    var w := v.(enabled := on);
    assert ReplayOf(w) == ReplayOf(v);
    FaithfulFrame(v, w, ReplayOf(v));
  }

  lemma ActFaithful(v: Log, a: Action)
    requires Inv(v) && Faithful(v)
    requires (forall s :: s in v.stats ==> s.event < |v.events|) && Respects(v, a)
    ensures Inv(Act(v, a)) && Faithful(Act(v, a))
  {
    hide Inv;
    hide Faithful;
    EventsInRange(v);
    ActInv(v, a);
    match a
    case DefineAction(name, signature) => DefineFaithful(v, name, signature);
    case DefineStatisticAction(name, signature) => DefineStatisticFaithful(v, name, signature);
    case EnableAction(on) => EnableFaithful(v, on);
    case LogAction(now, name, arg) => LogFaithful(v, now, name, arg);
    case UpdateAction(name, value) => UpdateFaithful(v, name, value);
  }

  lemma {:induction false} CallbacksFaithful(v: Log, actions: seq<Action>)
    requires Inv(v) && Faithful(v) && CallbacksRespect(v, actions)
    ensures Faithful(Acts(v, actions))
  {
    hide Inv;
    hide Faithful;
    hide Act;
    hide Respects;
    if actions != [] {
      var n := |actions| - 1;
      var front := actions[..n];
      forall k | 0 <= k < |front| ensures CallbackAt(v, front, k) {
        assert CallbackAt(v, actions, k);
        assert front[..k] == actions[..k];
      }
      CallbacksFaithful(v, front);
      assert CallbackAt(v, actions, n);
      EventsInRange(Acts(v, front));
      ActFaithful(Acts(v, front), actions[n]);
    }
  }

  // ---- A collection -------------------------------------------------------------

  /** Distinct statistics have distinct names. */
  lemma NamesOfStatistics(v: Log, i: nat, j: nat)
    requires Inv(v) && i < |v.stats| && j < |v.stats|
    requires v.stats[i].event < |v.events| && v.stats[j].event < |v.events| && NameOf(v, i) == NameOf(v, j)
    ensures i == j
  {
  }

  lemma StatisticNotBuiltin(v: Log, i: nat)
    requires Inv(v) && i < |v.stats| && v.stats[i].event < |v.events|
    ensures NameOf(v, i) != v.events[1].name && v.stats[i].event != SET_TIME
  {
    assert StatisticOk(v.events, v.stats[i]);
  }

  lemma SmallRecord(s: Statistic, sig: Signature)
    requires s.current.Sig() == sig && (sig.IntArgument? || sig.Int64Argument?)
    ensures RecordSize(s.current) <= BLOCK_SIZE
  {
  }

  /** Writing statistic i and remembering the value keeps the log faithful, and i is then up to date. */
  lemma WriteStatistic(v: Log, replay: seq<Event>, e: Event, i: nat, w: Log)
    requires Inv(v) && FaithfulTo(v, replay) && Inv(w)
    requires i < |v.stats| && v.stats[i].event < |v.events|
    requires e.def == v.events[v.stats[i].event] && e.arg == v.stats[i].current
    requires w.events == v.events
    requires w.stats == v.stats[i := v.stats[i].(last := v.stats[i].current, recorded := true)]
    ensures FaithfulTo(w, replay + [e])
  {
    hide Inv;
    hide LastValue;
    EventsInRange(v);
    EventsInRange(w);
    forall j | 0 <= j < |w.stats| ensures FaithfulAt(w, replay + [e], j) {
      assert FaithfulAt(v, replay, j);
      LastValueSnoc(replay, e, NameOf(v, j));
      if NameOf(v, j) == NameOf(v, i) { NamesOfStatistics(v, i, j); }
    }
  }

  /** After its turn in the loop, an initialized statistic's last written value is its current one. */
  ghost predicate UpToDate(v: Log, i: nat)
    requires i < |v.stats|
  {
    v.stats[i].initialized ==> v.stats[i].recorded && v.stats[i].last == v.stats[i].current
  }

  lemma CollectOneSummary(v: Log, now: Clock, i: nat)
    requires Inv(v) && v.enabled && i < |v.stats|
    ensures var s := v.stats[i];
            var w := CollectOne(v, now, i);
            && Inv(w) && s.event < |v.events|
            && w.events == v.events && w.enabled
            && w.stats == (if Due(s) then v.stats[i := s.(last := s.current, recorded := true)] else v.stats)
            && ReplayOf(w) == ReplayOf(v) +
                 (if Due(s) then [Event(NextClock(v, now, s.event, s.current), v.events[s.event], s.current)] else [])
  {
    CollectOneInv(v, now, i);
    var s := v.stats[i];
    assert StatisticOk(v.events, s);
    SmallRecord(s, v.events[s.event].sig);
    if Due(s) {
      RecordEventReplay(v, now, s.event, s.current);
      WithStatistics(RecordEvent(v, now, s.event, s.current), CollectOne(v, now, i));
    } else {
      assert Replay(v) + [] == Replay(v);
    }
  }

  lemma WithStatistics(u: Log, w: Log)
    requires Inv(u) && Inv(w) && w == u.(stats := w.stats)
    ensures ReplayOf(w) == ReplayOf(u)
  {
  }

  lemma CollectOneFaithful(v: Log, now: Clock, i: nat)
    requires Inv(v) && Faithful(v) && v.enabled && i < |v.stats|
    requires forall j :: 0 <= j < i ==> UpToDate(v, j)
    ensures var w := CollectOne(v, now, i);
            && Inv(w) && Faithful(w) && w.enabled && |w.stats| == |v.stats|
            && forall j :: 0 <= j <= i ==> UpToDate(w, j)
  {
    hide Inv;
    hide ReplayOf;
    hide FaithfulTo;
    hide CollectOne;
    hide NextClock;
    CollectOneSummary(v, now, i);
    var s := v.stats[i];
    var w := CollectOne(v, now, i);
    if Due(s) {
      WriteStatistic(v, ReplayOf(v), Event(NextClock(v, now, s.event, s.current), v.events[s.event], s.current), i, w);
    } else {
      assert ReplayOf(v) + [] == ReplayOf(v);
      FaithfulFrame(v, w, ReplayOf(v));
    }
    forall j | 0 <= j <= i ensures UpToDate(w, j) {
      if j < i { assert UpToDate(v, j); }
    }
  }

  lemma {:induction false} CollectFirstFaithful(v: Log, now: Clock, n: nat)
    requires Inv(v) && Faithful(v) && v.enabled && n <= |v.stats|
    ensures var w := CollectFirst(v, now, n);
            && Inv(w) && Faithful(w) && w.enabled && |w.stats| == |v.stats|
            && (forall j :: 0 <= j < n ==> UpToDate(w, j))
  {
    hide Inv;
    hide Faithful;
    hide CollectOne;
    if n > 0 {
      CollectFirstFaithful(v, now, n - 1);
      CollectOneFaithful(CollectFirst(v, now, n - 1), now, n - 1);
    }
  }

  /** What one can read off a replay whose last event closes a collection of v. */
  ghost predicate ShowsValues(v: Log, replay: seq<Event>, took: int64)
    requires forall i :: 0 <= i < |v.stats| ==> v.stats[i].event < |v.events|
  {
    && replay != []
    && replay[|replay| - 1].def == BUILTIN[1] && replay[|replay| - 1].arg == Int64(took)
    && forall i :: 0 <= i < |v.stats| ==>
         LastValue(replay[..|replay| - 1], NameOf(v, i)) ==
         if v.stats[i].initialized then Some(v.stats[i].current) else None
  }

  lemma FinishShows(v: Log, now: Clock, took: int64)
    requires Inv(v) && Faithful(v) && v.enabled
    ensures var w := Finish(v, now, took);
            && Inv(w) && Faithful(w)
            && (forall i :: 0 <= i < |w.stats| ==> w.stats[i].event < |w.events|)
            && ShowsValues(w, ReplayOf(w), took)
  {
    hide Inv;
    hide ReplayOf;
    hide LastValue;
    hide CollectFirst;
    hide RecordEvent;
    hide NextClock;
    var n := |v.stats|;
    CollectFirstFaithful(v, now, n);
    var u := CollectFirst(v, now, n);
    EventsInRange(u);
    forall i | 0 <= i < |u.stats| ensures NameOf(u, i) != u.events[1].name { StatisticNotBuiltin(u, i); }
    RecordFaithful(u, now, STATISTICS_COLLECTED, Int64(took));
    RecordSummary(u, now, STATISTICS_COLLECTED, Int64(took));
    var w := Finish(v, now, took);
    var r := ReplayOf(w);
    assert r[..|r| - 1] == ReplayOf(u);
    forall i | 0 <= i < |w.stats|
      ensures LastValue(r[..|r| - 1], NameOf(w, i)) == if w.stats[i].initialized then Some(w.stats[i].current) else None
    {
      assert FaithfulAt(u, ReplayOf(u), i) && UpToDate(u, i);
      RecordedIsInitialized(u, i);
    }
  }

  lemma RecordedIsInitialized(v: Log, i: nat)
    requires Inv(v) && i < |v.stats|
    ensures v.stats[i].recorded ==> v.stats[i].initialized
  {
    assert StatisticOk(v.events, v.stats[i]);
  }

  // ---- Collections that end on a disabled log --------------------------------------------

  function Settled(s: Statistic): Statistic {
    if Due(s) then s.(last := s.current, recorded := true) else s
  }

  /** On a disabled log the loop writes nothing, but still marks every due statistic as written. */
  lemma {:induction false} CollectFirstDisabled(v: Log, now: Clock, n: nat)
    requires !v.enabled && n <= |v.stats|
    ensures var w := CollectFirst(v, now, n);
            && w == v.(stats := w.stats) && |w.stats| == |v.stats|
            && forall i :: 0 <= i < |v.stats| ==> w.stats[i] == if i < n then Settled(v.stats[i]) else v.stats[i]
  {
    if n > 0 { CollectFirstDisabled(v, now, n - 1); }
  }

  /** Finishing a collection on a disabled log leaves it faithful if and only if nothing was due. */
  lemma FinishDisabled(v: Log, now: Clock, took: int64)
    requires Inv(v) && Faithful(v) && !v.enabled
    ensures Inv(Finish(v, now, took))
    ensures Faithful(Finish(v, now, took)) <==> forall i :: 0 <= i < |v.stats| ==> !Due(v.stats[i])
  {
    hide Inv;
    hide ReplayOf;
    hide LastValue;
    FinishInv(v, now, took);
    CollectFirstDisabled(v, now, |v.stats|);
    var w := Finish(v, now, took);
    assert w == CollectFirst(v, now, |v.stats|);
    OnlyStatisticsDiffer(v, w);
    EventsInRange(v);
    EventsInRange(w);
    forall i | 0 <= i < |v.stats|
      ensures FaithfulAt(w, ReplayOf(w), i) <==> !Due(v.stats[i])
    {
      assert FaithfulAt(v, ReplayOf(v), i);
      RecordedIsInitialized(v, i);
    }
    if i :| 0 <= i < |v.stats| && Due(v.stats[i]) { assert !FaithfulAt(w, ReplayOf(w), i); }
  }

  lemma OnlyStatisticsDiffer(v: Log, w: Log)
    requires Inv(v) && Inv(w) && w == v.(enabled := w.enabled, stats := w.stats)
    ensures ReplayOf(w) == ReplayOf(v)
  {
  }

  /**
   * A collection whose callbacks may do anything but log a statistic's name:
   * the log is faithful afterwards if and only if the callbacks left it
   * switched on, or left nothing to be written.
   */
  lemma CollectionFaithful(v: Log, now: Clock, took: int64, callbacks: seq<Action>)
    requires Inv(v) && Faithful(v) && v.enabled && CallbacksRespect(v, callbacks)
    ensures Faithful(Apply(v, Collect(now, took, callbacks))) <==>
            var u := Acts(v, callbacks);
            u.enabled || forall i :: 0 <= i < |u.stats| ==> !Due(u.stats[i])
  {
    hide Inv;
    hide Faithful;
    hide Finish;
    hide Acts;
    hide CallbacksRespect;
    CallbacksFaithful(v, callbacks);
    var u := Acts(v, callbacks);
    if u.enabled { FinishShows(u, now, took); } else { FinishDisabled(u, now, took); }
  }

  // ---- Runs -----------------------------------------------------------------------

  lemma ApplyFaithful(v: Log, op: Op)
    requires Inv(v) && Faithful(v) && OpRespects(v, op)
    ensures Faithful(Apply(v, op))
  {
    hide Inv;
    hide Faithful;
    hide Act;
    hide Finish;
    hide CallbacksRespect;
    EventsInRange(v);
    match op
    case Do(a) => ActFaithful(v, a);
    case Collect(now, took, callbacks) =>
      if v.enabled { CollectionFaithful(v, now, took, callbacks); }
  }

  lemma {:induction false} RunFaithful(start: Clock, ops: seq<Op>)
    requires Inv(Init(start)) && RunRespects(Init(start), ops)
    ensures Faithful(Run(Init(start), ops))
  {
    hide Inv;
    hide OpRespects;
    hide Apply;
    if ops == [] {
      InitFaithful(start);
    } else {
      hide Faithful;
      var n := |ops| - 1;
      var v := Init(start);
      forall k | 0 <= k < n ensures OpRespects(Run(v, ops[..n][..k]), ops[..n][k]) {
        assert ops[..n][..k] == ops[..k];
        assert OpRespects(Run(v, ops[..k]), ops[k]);
      }
      RunFaithful(start, ops[..n]);
      assert OpRespects(Run(v, ops[..n]), ops[n]);
      ApplyFaithful(Run(v, ops[..n]), ops[n]);
    }
  }

  lemma InitFaithful(start: Clock)
    requires Inv(Init(start))
    ensures Faithful(Init(start))
  {
    assert ReplayOf(Init(start)) == [];
  }

  /**
   * What one can read off a replay whose last event closes a collection: each
   * statistic has, as its last value, what it was last set to by these calls
   * (nothing at all, if it never was).
   */
  ghost predicate ShowsCalls(actions: seq<Action>, replay: seq<Event>, took: int64) {
    && replay != []
    && replay[|replay| - 1].def == EventDef("perf.statisticsCollected", Int64Argument)
    && replay[|replay| - 1].arg == Int64(took)
    && forall d :: d in Statistics(actions) ==> LastValue(replay[..|replay| - 1], d.name) == Value(actions, d.name)
  }

  lemma ValuesAreCalls(v: Log, actions: seq<Action>, replay: seq<Event>, took: int64)
    requires Matches(v, actions) && (forall i :: 0 <= i < |v.stats| ==> v.stats[i].event < |v.events|)
    requires ShowsValues(v, replay, took)
    ensures ShowsCalls(actions, replay, took)
  {
    hide Statistics;
    hide Value;
    hide LastValue;
    forall d | d in Statistics(actions) ensures LastValue(replay[..|replay| - 1], d.name) == Value(actions, d.name) {
      var i :| 0 <= i < |v.stats| && Statistics(actions)[i] == d;
      assert StatisticIs(v, actions, i);
      assert NameOf(v, i) == d.name;
    }
  }

  /**
   * Elision loses nothing. After any run in which statistics are set only
   * through the update functions and no collection loses anything
   * (CollectionFaithful), a collection that begins and ends with recording on
   * makes the replay end in perf.statisticsCollected, and just before that
   * event the last replayed value of every statistic is the one that the calls
   * have last set it to.
   */
  lemma ElisionLosesNothing(start: Clock, ops: seq<Op>, now: Clock, took: int64, callbacks: seq<Action>)
    requires Inv(Init(start)) && RunRespects(Init(start), ops)
    requires IsOn(Performed(ops)) && IsOn(Performed(ops) + callbacks)
    requires CallbacksRespect(Run(Init(start), ops), callbacks)
    ensures ShowsCalls(Performed(ops) + callbacks,
                       ReplayOf(Run(Init(start), ops + [Collect(now, took, callbacks)])), took)
  {
    hide Inv;
    hide Faithful;
    hide Finish;
    hide CallbacksRespect;
    hide ShowsValues;
    hide ShowsCalls;
    hide Matches;
    hide MarksMatch;
    hide Performed;
    var op := Collect(now, took, callbacks);
    RunFaithful(start, ops);
    var v := Run(Init(start), ops);
    CallbacksFaithful(v, callbacks);
    RunMatches(start, ops);
    MatchesMeans(v, Performed(ops));
    ActsMatch(v, Performed(ops), callbacks);
    var u := Acts(v, callbacks);
    MatchesMeans(u, Performed(ops) + callbacks);
    FinishShows(u, now, took);
    OpSnoc(ops, op);
    FinishMatches(u, Performed(ops) + callbacks, now, took, ops, op);
    ValuesAreCalls(Finish(u, now, took), Performed(ops) + callbacks, ReplayOf(Finish(u, now, took)), took);
    assert (ops + [op])[..|ops|] == ops;
    assert Run(Init(start), ops + [op]) == Apply(v, op) == Finish(u, now, took);
  }

  /** A replay only ever grows, so what a collection shows stays visible in every later replay. */
  lemma CollectionsStayVisible(v: Log, op: Op)
    requires Inv(v)
    ensures ReplayOf(v) <= ReplayOf(Apply(v, op))
  {
    hide Inv;
    hide ReplayOf;
    hide Act;
    hide CollectFirst;
    hide RecordEvent;
    match op
    case Do(a) => ActGrows(v, a);
    case Collect(now, took, callbacks) =>
      if v.enabled {
        ActsGrow(v, callbacks);
        var u := Acts(v, callbacks);
        CollectFirstGrows(u, now, |u.stats|);
        var w := CollectFirst(u, now, |u.stats|);
        CollectFirstInv(u, now, |u.stats|);
        EventsInRange(w);
        RecordSummary(w, now, STATISTICS_COLLECTED, Int64(took));
      }
  }

  lemma ActGrows(v: Log, a: Action)
    requires Inv(v)
    ensures Inv(Act(v, a)) && ReplayOf(v) <= ReplayOf(Act(v, a))
  {
    hide Inv;
    ActInv(v, a);
    match a
    case DefineAction(name, signature) => DefineInv(v, name, signature);
    case DefineStatisticAction(name, signature) => DefineStatisticInv(v, name, signature);
    case EnableAction(on) => OnlyStatisticsDiffer(v, Act(v, a));
    case LogAction(now, name, arg) =>
      InvBounds(v);
      var id := LookupEvent(v, name, arg.Sig());
      if id.Some? { RecordSummary(v, now, id.value, arg); }
    case UpdateAction(name, value) =>
      EventsInRange(v);
      UpdateInv(v, name, value);
  }

  lemma {:induction false} ActsGrow(v: Log, actions: seq<Action>)
    requires Inv(v)
    ensures ReplayOf(v) <= ReplayOf(Acts(v, actions))
  {
    hide Inv;
    hide ReplayOf;
    hide Act;
    if actions != [] {
      var n := |actions| - 1;
      ActsGrow(v, actions[..n]);
      ActGrows(Acts(v, actions[..n]), actions[n]);
    }
  }

  lemma CollectOneGrows(v: Log, now: Clock, i: nat)
    requires Inv(v) && i < |v.stats|
    ensures Inv(CollectOne(v, now, i)) && ReplayOf(v) <= ReplayOf(CollectOne(v, now, i))
  {
    hide Inv;
    hide ReplayOf;
    hide RecordEvent;
    CollectOneInv(v, now, i);
    EventsInRange(v);
    var s := v.stats[i];
    if Due(s) {
      RecordSummary(v, now, s.event, s.current);
      WithStatistics(RecordEvent(v, now, s.event, s.current), CollectOne(v, now, i));
    }
  }

  lemma {:induction false} CollectFirstGrows(v: Log, now: Clock, n: nat)
    requires Inv(v) && n <= |v.stats|
    ensures Inv(CollectFirst(v, now, n)) && ReplayOf(v) <= ReplayOf(CollectFirst(v, now, n))
  {
    hide Inv;
    hide ReplayOf;
    hide CollectOne;
    if n > 0 {
      CollectFirstGrows(v, now, n - 1);
      CollectOneGrows(CollectFirst(v, now, n - 1), now, n - 1);
    }
  }
}
