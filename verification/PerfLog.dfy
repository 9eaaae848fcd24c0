/**
 * The log object: hash tables, the statistics loop and the replay loop of
 * src/shell-perf-log.c, proved against PerfLogModel.
 */
module PerfLog {
  import opened Wrappers
  import opened PerfLogFormat
  import opened PerfLogModel
  import opened PerfLogInvariant
  import opened PerfLogBlocks
  import PerfLogReplay

  lemma BuiltinOk(v: Log, now: Clock)
    requires Inv(v)
    ensures forall x: int64 :: RecordOk(v.events, Record(0, SET_TIME, Int64(x)))
    ensures forall x: int64 :: RecordOk(v.events, Record(0, STATISTICS_COLLECTED, Int64(x)))
    ensures Inv(v.(lastTime := now))
  {
    assert v.events[0] == v.events[..2][0] && v.events[1] == v.events[..2][1];
    LastTimeIrrelevant(v, now);
  }

  /**
   * The paths through record_event. The recursive call for perf.setTime,
   * made after last_time has been set, is the escape of the model.
   */
  lemma RecordEventSteps(v: Log, now: Clock, id: uint16, arg: Arg)
    ensures !Accepts(v, arg) ==> RecordEvent(v, now, id, arg) == v
    ensures Accepts(v, arg) && !NeedsEscape(v.lastTime, now) ==>
              RecordEvent(v, now, id, arg) == Push(v, Record(Delta(v.lastTime, now), id, arg)).(lastTime := now)
    ensures Accepts(v, arg) && NeedsEscape(v.lastTime, now) ==>
              var u := RecordEvent(v.(lastTime := now), now, SET_TIME, Int64(now));
              RecordEvent(v, now, id, arg) == Push(u, Record(0, id, arg)) && u == Escape(v, now).(lastTime := now)
  {
  }

  lemma StatisticsAreOk(v: Log)
    requires Inv(v)
    ensures StatisticsOk(v)
    ensures forall s :: s in v.stats ==> s.event < |v.events|
    ensures forall i :: 0 <= i < |v.stats| ==> RecordOk(v.events, Record(0, v.stats[i].event, v.stats[i].current))
  {
    forall i | 0 <= i < |v.stats|
      ensures v.stats[i].event < |v.events|
      ensures RecordOk(v.events, Record(0, v.stats[i].event, v.stats[i].current))
    {
      assert StatisticOk(v.events, v.stats[i]);
    }
  }

  lemma RecordEventFrame(v: Log, now: Clock, id: uint16, arg: Arg)
    ensures var w := RecordEvent(v, now, id, arg);
            w.events == v.events && w.stats == v.stats && w.enabled == v.enabled && w.startTime == v.startTime
  {
  }

  lemma ActsSnoc(v: Log, actions: seq<Action>, i: nat)
    requires Inv(v) && i < |actions|
    ensures Acts(v, actions[..i + 1]) == Act(Acts(v, actions[..i]), actions[i])
  {
    assert actions[..i + 1][..i] == actions[..i];
  }

  /** The records a replay has read when it stands before record k of block b. */
  ghost function Done(v: Log, b: nat, k: nat): seq<Record>
    requires b < |v.blocks| && k <= |v.blocks[b]|
  {
    Flat(v.blocks[..b]) + v.blocks[b][..k]
  }

  ghost predicate DoneOk(v: Log, b: nat, k: nat)
    requires b < |v.blocks| && k <= |v.blocks[b]|
  {
    forall r :: r in Done(v, b, k) ==> RecordOk(v.events, r)
  }

  lemma DoneSnoc(v: Log, b: nat, k: nat)
    requires Inv(v) && b < |v.blocks| && k < |v.blocks[b]|
    ensures Done(v, b, k + 1) == Done(v, b, k) + [v.blocks[b][k]]
    ensures DoneOk(v, b, k) && DoneOk(v, b, k + 1) && RecordOk(v.events, v.blocks[b][k])
  {
    FlatOk(v, b);
    assert v.blocks[b][..k + 1] == v.blocks[b][..k] + [v.blocks[b][k]];
  }

  /** What one turn of the replay loop has to do. */
  lemma ReplayStep(v: Log, b: nat, k: nat)
    requires Inv(v) && b < |v.blocks| && k < |v.blocks[b]|
    ensures DoneOk(v, b, k) && DoneOk(v, b, k + 1)
    ensures var r := v.blocks[b][k];
            var before, after := ReplayClock(Done(v, b, k), v.startTime), ReplayClock(Done(v, b, k + 1), v.startTime);
            var shown := ReplayEvents(v.events, Done(v, b, k), v.startTime);
            && r.id < |v.events| && v.events[r.id].sig == r.arg.Sig()
            && (r.id == SET_TIME ==> r.arg.Int64?)
            && after == (if r.id == SET_TIME then r.arg.x else before + r.delta)
            && ReplayEvents(v.events, Done(v, b, k + 1), v.startTime) ==
               (if r.id == SET_TIME then shown else shown + [Event(after, v.events[r.id], r.arg)])
  {
    DoneSnoc(v, b, k);
    var r := v.blocks[b][k];
    assert v.events[0] == v.events[..2][0];
    ReplayClockSnoc(Done(v, b, k), r, v.startTime);
    ReplayEventsSnoc(v.events, Done(v, b, k), r, v.startTime);
  }

  ghost predicate FlatPrefixOk(v: Log, b: nat)
    requires b <= |v.blocks|
  {
    forall r :: r in Flat(v.blocks[..b]) ==> RecordOk(v.events, r)
  }

  lemma ReplayStart(v: Log)
    requires Inv(v)
    ensures FlatPrefixOk(v, 0)
    ensures ReplayEvents(v.events, Flat(v.blocks[..0]), v.startTime) == []
    ensures ReplayClock(Flat(v.blocks[..0]), v.startTime) == v.startTime
    ensures RecordsOk(v)
  {
  }

  lemma BlockEnds(v: Log, b: nat)
    requires Inv(v) && b < |v.blocks|
    ensures var n := |v.blocks[b]|;
            && DoneOk(v, b, 0) && DoneOk(v, b, n)
            && Done(v, b, 0) == Flat(v.blocks[..b])
            && Done(v, b, n) == Flat(v.blocks[..b + 1])
    ensures FlatPrefixOk(v, b) && FlatPrefixOk(v, b + 1)
  {
    FlatOk(v, b);
    FlatOk(v, b + 1);
    assert v.blocks[..b + 1][..b] == v.blocks[..b];
    assert v.blocks[b][..|v.blocks[b]|] == v.blocks[b];
  }

  lemma {:induction false} BlockSizeBounds(rs: seq<Record>)
    ensures forall k :: 0 <= k <= |rs| ==> (BlockSize(rs[..k]) < BlockSize(rs) <==> k < |rs|)
    ensures BlockSize(rs[..0]) == 0
  {
    assert rs[..|rs|] == rs;
    if rs != [] {
      var n := |rs| - 1;
      BlockSizeBounds(rs[..n]);
      forall k | 0 <= k < |rs| ensures BlockSize(rs[..k]) < BlockSize(rs) {
        assert rs[..n][..k] == rs[..k];
      }
    }
  }

  method ReadHeader(buffer: array<u8>, bytes: nat, pos: nat) returns (delta: nat, id: nat)
    requires pos + 6 <= bytes <= buffer.Length
    ensures delta == FromLE(buffer[..bytes][pos..pos + 4])
    ensures id == FromLE(buffer[..bytes][pos + 4..pos + 6])
  {
    assert buffer[..bytes][pos..pos + 4] == buffer[pos..pos + 4];
    assert buffer[..bytes][pos + 4..pos + 6] == buffer[pos + 4..pos + 6];
    delta := FromLE(buffer[pos..pos + 4]);
    id := FromLE(buffer[pos + 4..pos + 6]);
  }

  lemma Window(all: seq<u8>, bytes: nat, pos: nat, k: nat)
    requires pos + k <= bytes <= |all|
    ensures all[..bytes][pos..][..k] == all[pos..pos + k]
  {
  }

  /** The four branches of the replay on the event's signature. */
  method ReadArg(buffer: array<u8>, bytes: nat, pos: nat, sig: Signature) returns (arg: Arg, used: nat)
    requires pos <= bytes <= buffer.Length
    requires DecodeArg(sig, buffer[..bytes][pos..]).Some?
    ensures Some((arg, used)) == DecodeArg(sig, buffer[..bytes][pos..])
  {
    ghost var b := buffer[..bytes][pos..];
    match sig
    case NoArgument =>
      arg, used := Nothing, 0;
    case IntArgument =>
      Window(buffer[..], bytes, pos, 4);
      assert b == buffer[..][..bytes][pos..] && b[..4] == buffer[pos..pos + 4];
      arg, used := Int(AsInt32(buffer[pos..pos + 4])), 4;
    case Int64Argument =>
      Window(buffer[..], bytes, pos, 8);
      assert b == buffer[..][..bytes][pos..] && b[..8] == buffer[pos..pos + 8];
      arg, used := Int64(AsInt64(buffer[pos..pos + 8])), 8;
    case StringArgument =>
      var n := 0;
      while buffer[pos + n] != 0
        invariant 0 <= n <= StringLength(b)
        invariant 0 !in b[..n]
        decreases StringLength(b) - n
      {
        assert b[n] == buffer[pos + n];
        n := n + 1;
      }
      assert b[n] == 0;
      StringLengthIs(b, n);
      Window(buffer[..], bytes, pos, n);
      assert b == buffer[..][..bytes][pos..] && b[..n] == buffer[pos..pos + n];
      arg, used := Str(buffer[pos..pos + n]), n + 1;
  }

  class ShellPerfLog {
    var events: seq<EventDef>
    var eventsByName: map<string, uint16>
    var statistics: seq<Statistic>
    var startTime: Clock
    var lastTime: Clock
    var enabled: bool
    const queue: BlockQueue

    /** The abstract value of the log. */
    ghost var model: Log

    ghost predicate Tables()
      reads this
    {
      && (forall name :: name in eventsByName ==>
            eventsByName[name] < |events| && events[eventsByName[name]].name == name)
      && (forall i :: 0 <= i < |events| ==> events[i].name in eventsByName)
    }

    ghost predicate Valid()
      reads this, queue, queue.Repr
    {
      && this !in queue.Repr && queue.Valid() && Tables() && Inv(model)
      && model == Log(events, statistics, startTime, lastTime, enabled, queue.records)
    }

    constructor (now: Clock)
      ensures Valid() && model == Init(now) && fresh(queue.Repr)
    {
      events := BUILTIN;
      eventsByName := map[BUILTIN[0].name := 0, BUILTIN[1].name := 1];
      statistics := [];
      startTime, lastTime := now, now;
      enabled := false;
      queue := new BlockQueue();
      model := Init(now);
      new;
      InitInv(now);
    }

    method SetEnabled(on: bool)
      requires Valid()
      modifies this
      ensures Valid() && model == old(model).(enabled := on)
    {
      enabled := on;
      model := model.(enabled := on);
    }

    lemma LookupAgrees(name: string)
      requires Valid()
      ensures FindEvent(events, name) == if name in eventsByName then Some(eventsByName[name] as nat) else None
    {
      if name in eventsByName {
        PerfLogReplay.FindEventUnique(events, eventsByName[name]);
      }
    }

    method DefineEvent(name: string, signature: string) returns (id: Option<uint16>)
      requires Valid()
      modifies this
      ensures Valid() && (model, id) == Define(old(model), name, signature)
    {
      hide Inv;
      hide ParseSignature;
      hide FindEvent;
      hide Replay;
      hide EndClock;
      DefineInv(model, name, signature);
      LookupAgrees(name);
      var sig := ParseSignature(signature);
      if sig.None? || |events| >= MAX_EVENTS || '\"' in name || name in eventsByName {
        return None;
      }
      id := Some(|events|);
      eventsByName := eventsByName[name := |events|];
      events := events + [EventDef(name, sig.value)];
      model := Define(model, name, signature).0;
    }

    method DefineStat(name: string, signature: string)
      requires Valid()
      modifies this
      ensures Valid() && model == DefineStatistic(old(model), name, signature)
    {
      hide Inv;
      hide Define;
      hide Replay;
      hide EndClock;
      DefineStatisticInv(model, name, signature);
      DefineInv(model, name, signature);
      if signature != "i" && signature != "x" { return; }
      var id := DefineEvent(name, signature);
      if id.Some? {
        var zero := if signature == "i" then Int(0) else Int64(0);
        statistics := statistics + [Statistic(id.value, zero, zero, false, false)];
        model := AddStatistic(model, id.value, zero);
      }
    }

    method Lookup(name: string, sig: Signature) returns (id: Option<uint16>)
      requires Valid()
      ensures id == LookupEvent(model, name, sig)
    {
      hide Inv;
      hide FindEvent;
      LookupAgrees(name);
      if name !in eventsByName || events[eventsByName[name]].sig != sig {
        return None;
      }
      id := Some(eventsByName[name]);
    }

    /** record_event, including its recursive call for perf.setTime. */
    method RecordOne(now: Clock, id: uint16, arg: Arg)
      requires Valid() && RecordOk(events, Record(0, id, arg))
      modifies this, queue.Repr
      ensures Valid() && fresh(queue.Repr - old(queue.Repr))
      ensures model == RecordEvent(old(model), now, id, arg)
      decreases now > lastTime + MAX_DELTA
    {
      hide Inv;
      hide RecordOk;
      hide Append;
      hide RecordEvent;
      RecordEventInv(model, now, id, arg);
      BuiltinOk(model, now);
      RecordEventSteps(model, now, id, arg);
      if !enabled || RecordSize(arg) > BLOCK_SIZE { return; }
      ghost var result := RecordEvent(model, now, id, arg);
      var delta: uint32;
      if now > lastTime + MAX_DELTA {
        lastTime := now;
        model := model.(lastTime := now);
        RecordOne(now, SET_TIME, Int64(now));
        delta := 0;
      } else if now < lastTime {
        delta := 0;
      } else {
        delta := now - lastTime;
      }
      lastTime := now;
      queue.Push(Record(delta, id, arg));
      model := result;
    }

    /** shell_perf_log_event and its three variants. */
    method LogOne(now: Clock, name: string, arg: Arg)
      requires Valid()
      modifies this, queue.Repr
      ensures Valid() && fresh(queue.Repr - old(queue.Repr))
      ensures model == LogEvent(old(model), now, name, arg)
    {
      var id := Lookup(name, arg.Sig());
      hide Inv;
      hide RecordEvent;
      if id.Some? { RecordOne(now, id.value, arg); }
    }

    /** shell_perf_log_update_statistic_i and _x; the table by name is searched as a list. */
    method UpdateStatistic(name: string, value: Arg)
      requires Valid()
      modifies this
      ensures Valid() && model == Update(old(model), name, value)
      ensures |statistics| == |old(statistics)|
      ensures forall i :: 0 <= i < |statistics| ==>
                var s := old(statistics)[i];
                statistics[i] ==
                if s.event < |events| && events[s.event] == EventDef(name, value.Sig())
                then s.(current := value, initialized := true) else s
    {
      hide Inv;
      hide Replay;
      hide EndClock;
      hide StatisticsOk;
      hide StatisticOk;
      hide FindStatistic;
      hide RecordOk;
      StatisticsAreOk(model);
      UpdateInv(model, name, value);
      UpdateIs(model, name, value);
      ghost var before := model;
      assert forall i :: 0 <= i < |before.stats| ==>
               (IsFor(before, i, name, value) <==>
                before.stats[i].event < |events| && events[before.stats[i].event] == EventDef(name, value.Sig()));
      model := Update(model, name, value);
      var i := FindStatistic(statistics, events, name);
      if i.None? || events[statistics[i.value].event].sig != value.Sig() { return; }
      statistics := statistics[i.value := statistics[i.value].(current := value, initialized := true)];
    }

    method Perform(a: Action)
      requires Valid()
      modifies this, queue.Repr
      ensures Valid() && fresh(queue.Repr - old(queue.Repr))
      ensures model == Act(old(model), a)
    {
      hide Inv;
      match a
      case DefineAction(name, signature) => var _ := DefineEvent(name, signature);
      case DefineStatisticAction(name, signature) => DefineStat(name, signature);
      case EnableAction(on) => SetEnabled(on);
      case LogAction(now, name, arg) => LogOne(now, name, arg);
      case UpdateAction(name, value) => UpdateStatistic(name, value);
    }

    /** The body of the loop over statistics. */
    method CollectStatistic(now: Clock, i: nat)
      requires Valid() && i < |statistics|
      modifies this, queue.Repr
      ensures Valid() && fresh(queue.Repr - old(queue.Repr))
      ensures model == CollectOne(old(model), now, i)
    {
      hide Inv;
      hide RecordEvent;
      CollectOneInv(model, now, i);
      StatisticsAreOk(model);
      ghost var result := CollectOne(model, now, i);
      var s := statistics[i];
      if s.initialized && (!s.recorded || s.current != s.last) {
        RecordEventFrame(model, now, s.event, s.current);
        RecordOne(now, s.event, s.current);
        statistics := statistics[i := s.(last := s.current, recorded := true)];
        model := result;
      }
    }

    /**
     * shell_perf_log_collect_statistics: callbacks are the actions of the
     * registered closures, took what the second reading of the clock gives.
     */
    method CollectStatistics(now: Clock, took: int64, callbacks: seq<Action>)
      requires Valid()
      modifies this, queue.Repr
      ensures Valid() && fresh(queue.Repr - old(queue.Repr))
      ensures model == Apply(old(model), Collect(now, took, callbacks))
    {
      hide Inv;
      hide Acts;
      hide Finish;
      if !enabled { return; }
      RunCallbacks(callbacks);
      RecordStatistics(now, took);
    }

    /** The loop over the closures */
    method RunCallbacks(callbacks: seq<Action>)
      requires Valid()
      modifies this, queue.Repr
      ensures Valid() && fresh(queue.Repr - old(queue.Repr))
      ensures model == Acts(old(model), callbacks)
    {
      hide Inv;
      hide Act;
      ghost var v := model;
      var i := 0;
      while i < |callbacks|
        invariant 0 <= i <= |callbacks|
        invariant Valid() && fresh(queue.Repr - old(queue.Repr))
        invariant model == Acts(v, callbacks[..i])
      {
        ActsSnoc(v, callbacks, i);
        Perform(callbacks[i]);
        i := i + 1;
      }
      assert callbacks[..|callbacks|] == callbacks;
    }

    /** The loop over the statistics and what follows it */
    method RecordStatistics(now: Clock, took: int64)
      requires Valid()
      modifies this, queue.Repr
      ensures Valid() && fresh(queue.Repr - old(queue.Repr))
      ensures model == Finish(old(model), now, took)
    {
      hide Inv;
      hide RecordEvent;
      hide CollectOne;
      ghost var u := model;
      var n := |statistics|;
      var i := 0;
      while i < n
        invariant 0 <= i <= n == |u.stats|
        invariant Valid() && fresh(queue.Repr - old(queue.Repr))
        invariant model == CollectFirst(u, now, i)
      {
        CollectStatistic(now, i);
        i := i + 1;
      }
      BuiltinOk(model, now);
      RecordOne(now, STATISTICS_COLLECTED, Int64(took));
    }

    /** The inner loop of shell_perf_log_replay: one block, from its first byte to its last. */
    method ReplayBlock(b: nat, eventTime: int, out: seq<Event>) returns (time: int, result: seq<Event>)
      requires Valid() && b < |queue.blocks|
      requires DoneOk(model, b, 0) && out == ReplayEvents(events, Done(model, b, 0), startTime)
      requires eventTime == ReplayClock(Done(model, b, 0), startTime)
      ensures var k := |queue.records[b]|;
              && DoneOk(model, b, k)
              && result == ReplayEvents(events, Done(model, b, k), startTime)
              && time == ReplayClock(Done(model, b, k), startTime)
    {
      hide Inv;
      hide RecordOk;
      hide EncodeBlock;
      hide BlockSize;
      hide ReplayEvents;
      hide ReplayClock;
      hide Done;
      hide DecodeArg;
      var block := queue.blocks[b];
      ghost var rs := queue.records[b];
      assert Holds(block, rs);
      time, result := eventTime, out;
      var pos := 0;
      ghost var k := 0;
      BlockSizeBounds(rs);
      while pos < block.bytes
        invariant 0 <= k <= |rs| && pos == BlockSize(rs[..k])
        invariant DoneOk(model, b, k)
        invariant result == ReplayEvents(events, Done(model, b, k), startTime)
        invariant time == ReplayClock(Done(model, b, k), startTime)
        decreases |rs| - k
      {
        BlockSizeBounds(rs);
        ReadRecord(rs, k);
        ReplayStep(model, b, k);
        var delta, id := ReadHeader(block.buffer, block.bytes, pos);
        pos := pos + 6;
        if id == SET_TIME {
          var x, _ := ReadArg(block.buffer, block.bytes, pos, Int64Argument);
          time := x.x;
          pos := pos + 8;
        } else {
          time := time + delta;
          var def := events[id];
          var arg, used := ReadArg(block.buffer, block.bytes, pos, def.sig);
          pos := pos + used;
          result := result + [Event(time, def, arg)];
        }
        k := k + 1;
      }
    }

    /** shell_perf_log_replay; out is the sequence of calls of the replay function. */
    method ReplayAll() returns (out: seq<Event>)
      requires Valid()
      ensures out == PerfLogModel.Replay(model)
    {
      hide Inv;
      hide ReplayEvents;
      hide ReplayClock;
      hide RecordOk;
      out := [];
      var time := startTime as int;
      var b := 0;
      ReplayStart(model);
      while b < |queue.blocks|
        invariant 0 <= b <= |queue.blocks|
        invariant FlatPrefixOk(model, b)
        invariant out == ReplayEvents(events, Flat(queue.records[..b]), startTime)
        invariant time == ReplayClock(Flat(queue.records[..b]), startTime)
      {
        BlockEnds(model, b);
        time, out := ReplayBlock(b, time, out);
        b := b + 1;
      }
      assert queue.records[..b] == queue.records;
    }
  }
}
