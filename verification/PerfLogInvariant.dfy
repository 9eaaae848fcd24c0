/** Every operation of the log keeps PerfLogModel.Inv, and what each one appends to the replay. */
module PerfLogInvariant {
  import opened Wrappers
  import opened PerfLogFormat
  import opened PerfLogModel

  // ---- Appending ------------------------------------------------------------

  lemma FlatAppend(blocks: seq<seq<Record>>, r: Record)
    ensures Flat(Append(blocks, r)) == Flat(blocks) + [r]
  {
    var n := |blocks| - 1;
    var out := Append(blocks, r);
    if |out| == |blocks| {
      assert out[..n] == blocks[..n];
    } else {
      assert out[..|blocks|] == blocks;
    }
  }

  lemma BlockSizeAppend(rs: seq<Record>, r: Record)
    ensures BlockSize(rs + [r]) == BlockSize(rs) + RecordSize(r.arg)
  {
    assert (rs + [r])[..|rs|] == rs;
  }

  /** Next-fit keeps the packing invariant. */
  lemma AppendPacked(blocks: seq<seq<Record>>, r: Record)
    requires Packed(blocks) && RecordSize(r.arg) <= BLOCK_SIZE
    ensures Packed(Append(blocks, r))
  {
    var out := Append(blocks, r);
    BlockSizeAppend([], r);
    assert [] + [r] == [r];
    if |blocks| > 0 {
      BlockSizeAppend(blocks[|blocks| - 1], r);
    }
    hide BlockSize;
    hide RecordSize;
    if |out| == |blocks| {
      assert out == blocks[|blocks| - 1 := blocks[|blocks| - 1] + [r]];
    } else {
      assert out == blocks + [[r]];
    }
  }

  lemma AppendOk(v: Log, r: Record)
    requires RecordsOk(v) && RecordOk(v.events, r)
    ensures RecordsOk(v.(blocks := Append(v.blocks, r)))
  {
  }

  // ---- Replay of a longer list ----------------------------------------------

  lemma ReplayClockSnoc(rs: seq<Record>, r: Record, start: int)
    ensures ReplayClock(rs + [r], start) ==
            if r.id == SET_TIME && r.arg.Int64? then r.arg.x else ReplayClock(rs, start) + r.delta
  {
    assert (rs + [r])[..|rs|] == rs;
  }

  lemma ReplayEventsSnoc(events: seq<EventDef>, rs: seq<Record>, r: Record, start: int)
    requires forall q :: q in rs ==> RecordOk(events, q)
    requires RecordOk(events, r)
    ensures forall q :: q in rs + [r] ==> RecordOk(events, q)
    ensures ReplayEvents(events, rs + [r], start) ==
            ReplayEvents(events, rs, start) +
            (if r.id == SET_TIME then [] else [Event(ReplayClock(rs + [r], start), events[r.id], r.arg)])
  {
    assert (rs + [r])[..|rs|] == rs;
  }

  /** Later definitions do not change what earlier records mean. */
  lemma {:induction false} ReplayEventsExtend(events: seq<EventDef>, def: EventDef, rs: seq<Record>, start: int)
    requires forall q :: q in rs ==> RecordOk(events, q)
    ensures forall q :: q in rs ==> RecordOk(events + [def], q)
    ensures ReplayEvents(events + [def], rs, start) == ReplayEvents(events, rs, start)
  {
    if rs != [] {
      assert rs[|rs| - 1] in rs;
      ReplayEventsExtend(events, def, rs[..|rs| - 1], start);
    }
  }

  function EndClock(v: Log): int {
    ReplayClock(Flat(v.blocks), v.startTime)
  }

  // ---- Recording ------------------------------------------------------------

  /** The replay clock after an accepted event. */
  function NextClock(v: Log, now: int, id: uint16, arg: Arg): int {
    if id == SET_TIME && arg.Int64? then arg.x
    else if NeedsEscape(v.lastTime, now) then now
    else EndClock(v) + Delta(v.lastTime, now)
  }

  function Emitted(v: Log, now: int, id: uint16, arg: Arg): seq<Event>
    requires id < |v.events|
  {
    if id == SET_TIME then [] else [Event(NextClock(v, now, id, arg), v.events[id], arg)]
  }

  lemma PushReplay(v: Log, r: Record)
    requires RecordsOk(v) && RecordOk(v.events, r)
    ensures var w := Push(v, r);
            && RecordsOk(w)
            && EndClock(w) == (if r.id == SET_TIME && r.arg.Int64? then r.arg.x else EndClock(v) + r.delta)
            && Replay(w) == Replay(v) +
                 (if r.id == SET_TIME then [] else [Event(EndClock(w), v.events[r.id], r.arg)])
  {
    FlatAppend(v.blocks, r);
    AppendOk(v, r);
    hide Append;
    FlatOk(v, |v.blocks|);
    assert v.blocks[..|v.blocks|] == v.blocks;
    ReplayClockSnoc(Flat(v.blocks), r, v.startTime);
    ReplayEventsSnoc(v.events, Flat(v.blocks), r, v.startTime);
  }

  /** Appending one record keeps the invariant and extends the replay by what that record emits. */
  lemma PushInv(v: Log, r: Record)
    requires Inv(v) && RecordOk(v.events, r) && RecordSize(r.arg) <= BLOCK_SIZE
    ensures var w := Push(v, r);
            && Inv(w)
            && EndClock(w) == (if r.id == SET_TIME && r.arg.Int64? then r.arg.x else EndClock(v) + r.delta)
            && Replay(w) == Replay(v) +
                 (if r.id == SET_TIME then [] else [Event(EndClock(w), v.events[r.id], r.arg)])
  {
    AppendPacked(v.blocks, r);
    PushReplay(v, r);
    hide Append;
    hide Packed;
    hide RecordsOk;
    hide Replay;
    hide EndClock;
    hide RecordOk;
  }

  lemma EscapeInv(v: Log, now: Clock)
    requires Inv(v)
    ensures var w := Escape(v, now);
            && Inv(w) && Replay(w) == Replay(v) && w.events == v.events
            && EndClock(w) == if NeedsEscape(v.lastTime, now) then now else EndClock(v)
  {
    if NeedsEscape(v.lastTime, now) {
      assert v.events[0] == v.events[..2][0];
      PushInv(v, Record(0, SET_TIME, Int64(now)));
    }
  }

  /** last_time plays no part in the invariant or in the replay. */
  lemma LastTimeIrrelevant(v: Log, now: Clock)
    requires Inv(v)
    ensures var w := v.(lastTime := now);
            Inv(w) && Replay(w) == Replay(v) && EndClock(w) == EndClock(v)
  {
    hide Packed;
    hide RecordOk;
    hide StatisticOk;
    hide ReplayEvents;
  }

  /** An accepted event appears at the end of the replay, after at most one hidden escape record. */
  lemma RecordEventReplay(v: Log, now: Clock, id: uint16, arg: Arg)
    requires Inv(v) && RecordOk(v.events, Record(0, id, arg)) && Accepts(v, arg)
    ensures var w := RecordEvent(v, now, id, arg);
            Inv(w) && Replay(w) == Replay(v) + Emitted(v, now, id, arg) && EndClock(w) == NextClock(v, now, id, arg)
  {
    hide Inv;
    hide Replay;
    hide EndClock;
    hide Push;
    hide Escape;
    var r := Record(Delta(v.lastTime, now), id, arg);
    EscapeInv(v, now);
    PushInv(Escape(v, now), r);
    LastTimeIrrelevant(Push(Escape(v, now), r), now);
  }

  /**
   * What an accepted event adds to the chain: its record with the time since
   * the last one, where going back counts as nothing; and before it, if more
   * than 0xffffffff microseconds have passed and only then, a perf.setTime
   * record with the full time.
   */
  lemma RecordsWritten(v: Log, now: Clock, id: uint16, arg: Arg)
    requires Accepts(v, arg)
    ensures var w := RecordEvent(v, now, id, arg);
            var passed := now - v.lastTime;
            && w.lastTime == now
            && Flat(w.blocks) ==
               if passed > 0xffff_ffff then Flat(v.blocks) + [Record(0, 0, Int64(now)), Record(0, id, arg)]
               else Flat(v.blocks) + [Record(if passed < 0 then 0 else passed, id, arg)]
  {
    hide Append;
    hide Flat;
    var u := Escape(v, now);
    var r := Record(Delta(v.lastTime, now), id, arg);
    FlatAppend(v.blocks, Record(0, SET_TIME, Int64(now)));
    FlatAppend(u.blocks, r);
    var e := Record(0, SET_TIME, Int64(now));
    assert Flat(v.blocks) + [e] + [r] == Flat(v.blocks) + [e, r];
  }

  // ---- Invariant preservation -----------------------------------------------

  lemma InitInv(now: Clock)
    ensures Inv(Init(now)) && Replay(Init(now)) == [] && EndClock(Init(now)) == now
  {
  }

  lemma DefineInv(v: Log, name: string, signature: string)
    requires Inv(v)
    ensures var (w, id) := Define(v, name, signature);
            && Inv(w) && Replay(w) == Replay(v) && EndClock(w) == EndClock(v)
            && (id.None? ==> w == v)
            && (id.Some? ==> id.value == |v.events| && |w.events| == |v.events| + 1
                             && w.events[..|v.events|] == v.events && w.stats == v.stats
                             && Some(w.events[id.value].sig) == ParseSignature(signature))
  {
    var (w, id) := Define(v, name, signature);
    if id.Some? {
      var def := w.events[|v.events|];
      assert w.events == v.events + [def];
      assert w.events[..2] == v.events[..2];
      FlatOk(v, |v.blocks|);
      assert v.blocks[..|v.blocks|] == v.blocks;
      ReplayEventsExtend(v.events, def, Flat(v.blocks), v.startTime);
      forall i | 0 <= i < |w.stats| ensures StatisticOk(w.events, w.stats[i]) {
        assert StatisticOk(v.events, v.stats[i]);
      }
    }
  }

  lemma AddStatisticInv(v: Log, id: uint16, zero: Arg)
    requires Inv(v) && 2 <= id < |v.events| && (zero.Int? || zero.Int64?) && v.events[id].sig == zero.Sig()
    requires forall i :: 0 <= i < |v.stats| ==> v.stats[i].event < id
    ensures var w := AddStatistic(v, id, zero);
            Inv(w) && Replay(w) == Replay(v) && EndClock(w) == EndClock(v)
  {
    hide Packed;
    hide RecordOk;
    hide ReplayEvents;
    var w := AddStatistic(v, id, zero);
    forall i | 0 <= i < |w.stats| ensures StatisticOk(w.events, w.stats[i]) {
      if i < |v.stats| { assert StatisticOk(v.events, v.stats[i]); }
    }
  }

  lemma DefineStatisticInv(v: Log, name: string, signature: string)
    requires Inv(v)
    ensures var w := DefineStatistic(v, name, signature);
            Inv(w) && Replay(w) == Replay(v) && EndClock(w) == EndClock(v)
  {
    if signature == "i" || signature == "x" {
      DefineInv(v, name, signature);
      var (u, id) := Define(v, name, signature);
      hide Define;
      if id.Some? {
        forall i | 0 <= i < |u.stats| ensures u.stats[i].event < id.value {
          assert StatisticOk(v.events, v.stats[i]);
        }
        hide Inv;
        hide Replay;
        hide EndClock;
        AddStatisticInv(u, id.value, if signature == "i" then Int(0) else Int64(0));
      }
    }
  }

  lemma UpdateInv(v: Log, name: string, value: Arg)
    requires Inv(v)
    ensures var w := Update(v, name, value);
            Inv(w) && Replay(w) == Replay(v) && EndClock(w) == EndClock(v)
  {
    var w := Update(v, name, value);
    forall i | 0 <= i < |w.stats| ensures StatisticOk(w.events, w.stats[i]) {
      assert StatisticOk(v.events, v.stats[i]);
    }
  }

  /** Whether i is the statistic of that name, defined with the type of the value */
  predicate IsFor(v: Log, i: nat, name: string, value: Arg)
    requires i < |v.stats|
  {
    v.stats[i].event < |v.events| && v.events[v.stats[i].event] == EventDef(name, value.Sig())
  }

  /** An update sets the statistic that it is for, whatever it was before, and no other. */
  lemma UpdateIs(v: Log, name: string, value: Arg)
    requires Inv(v)
    ensures var w := Update(v, name, value);
            && w == v.(stats := w.stats) && |w.stats| == |v.stats|
            && forall i :: 0 <= i < |v.stats| ==>
                 w.stats[i] ==
                 if IsFor(v, i, name, value) then v.stats[i].(current := value, initialized := true) else v.stats[i]
  {
    hide FindStatistic;
    var k := FindStatistic(v.stats, v.events, name);
    forall i | 0 <= i < |v.stats| ensures IsFor(v, i, name, value) ==> k == Some(i) {
      assert StatisticOk(v.events, v.stats[i]);
      if IsFor(v, i, name, value) && k.Some? { assert StatisticOk(v.events, v.stats[k.value]); }
    }
  }

  lemma RecordEventInv(v: Log, now: Clock, id: uint16, arg: Arg)
    requires Inv(v) && RecordOk(v.events, Record(0, id, arg))
    ensures Inv(RecordEvent(v, now, id, arg))
  {
    if Accepts(v, arg) {
      RecordEventReplay(v, now, id, arg);
    }
  }

  lemma ActInv(v: Log, a: Action)
    requires Inv(v)
    ensures Inv(Act(v, a))
  {
    match a
    case DefineAction(name, signature) => DefineInv(v, name, signature);
    case DefineStatisticAction(name, signature) => DefineStatisticInv(v, name, signature);
    case EnableAction(on) =>
    case LogAction(now, name, arg) =>
      var id := LookupEvent(v, name, arg.Sig());
      if id.Some? { RecordEventInv(v, now, id.value, arg); }
    case UpdateAction(name, value) => UpdateInv(v, name, value);
  }

  lemma CollectOneInv(v: Log, now: Clock, i: nat)
    requires Inv(v) && i < |v.stats|
    ensures Inv(CollectOne(v, now, i))
  {
    var s := v.stats[i];
    assert StatisticOk(v.events, s);
    if Due(s) {
      RecordEventInv(v, now, s.event, s.current);
      var w := CollectOne(v, now, i);
      forall j | 0 <= j < |w.stats| ensures StatisticOk(w.events, w.stats[j]) {
        assert StatisticOk(v.events, v.stats[j]);
      }
    }
  }

  lemma {:induction false} CollectFirstInv(v: Log, now: Clock, n: nat)
    requires Inv(v) && n <= |v.stats|
    ensures Inv(CollectFirst(v, now, n))
  {
    hide Inv;
    hide CollectOne;
    if n > 0 {
      CollectFirstInv(v, now, n - 1);
      CollectOneInv(CollectFirst(v, now, n - 1), now, n - 1);
    }
  }

  lemma FinishInv(v: Log, now: Clock, took: int64)
    requires Inv(v)
    ensures Inv(Finish(v, now, took))
  {
    CollectFirstInv(v, now, |v.stats|);
    var u := CollectFirst(v, now, |v.stats|);
    assert u.events[1] == u.events[..2][1];
    RecordEventInv(u, now, STATISTICS_COLLECTED, Int64(took));
  }

  // ---- Runs -----------------------------------------------------------------

  function Acts(v: Log, actions: seq<Action>): (w: Log)
    requires Inv(v)
    ensures Inv(w)
  {
    if actions == [] then v
    else
      var u := Acts(v, actions[..|actions| - 1]);
      ActInv(u, actions[|actions| - 1]);
      Act(u, actions[|actions| - 1])
  }

  /** One call of the public interface. Collecting does nothing on a disabled log. */
  function Apply(v: Log, op: Op): (w: Log)
    requires Inv(v)
    ensures Inv(w)
  {
    match op
    case Do(a) => ActInv(v, a); Act(v, a)
    case Collect(now, took, callbacks) =>
      if !v.enabled then v
      else
        FinishInv(Acts(v, callbacks), now, took);
        Finish(Acts(v, callbacks), now, took)
  }

  function Run(v: Log, ops: seq<Op>): (w: Log)
    requires Inv(v)
    ensures Inv(w)
  {
    if ops == [] then v else Apply(Run(v, ops[..|ops| - 1]), ops[|ops| - 1])
  }
}
