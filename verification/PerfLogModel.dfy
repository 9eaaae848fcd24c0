/**
 * The performance log as a value: what each operation of
 * src/shell-perf-log.c does to the event table, the statistics, the clock
 * state and the chain of blocks, with the records of a block kept as a list.
 * PerfLog.dfy ties the byte buffers of the real object to these values.
 */
module PerfLogModel {
  import opened Wrappers
  import opened PerfLogFormat

  const BLOCK_SIZE: nat := 8192
  const MAX_EVENTS: nat := 65536
  const MAX_DELTA: int := 0xffff_ffff

  const SET_TIME: uint16 := 0
  const STATISTICS_COLLECTED: uint16 := 1

  /** A gint64 in microseconds whose sum with MAX_DELTA is still a gint64. */
  type Clock = t: int | -0x8000_0000_0000_0000 <= t && t + 0xffff_ffff < 0x8000_0000_0000_0000

  datatype EventDef = EventDef(name: string, sig: Signature)

  datatype Statistic =
    Statistic(event: uint16, current: Arg, last: Arg, initialized: bool, recorded: bool)

  datatype Log = Log(
    events: seq<EventDef>,
    stats: seq<Statistic>,
    startTime: Clock,
    lastTime: Clock,
    enabled: bool,
    blocks: seq<seq<Record>>)

  const BUILTIN: seq<EventDef> :=
    [EventDef("perf.setTime", Int64Argument), EventDef("perf.statisticsCollected", Int64Argument)]

  function Init(now: Clock): Log {
    Log(BUILTIN, [], now, now, false, [])
  }

  // ---- Events and statistics by name ----------------------------------------

  /** The entry of events_by_name: names are unique, so at most one index. */
  function FindEvent(events: seq<EventDef>, name: string): (r: Option<nat>)
    ensures r.Some? ==> r.value < |events| && events[r.value].name == name
    ensures r.None? ==> forall i :: 0 <= i < |events| ==> events[i].name != name
  {
    if events == [] then None
    else if events[|events| - 1].name == name then Some(|events| - 1)
    else FindEvent(events[..|events| - 1], name)
  }

  /** define_event: the new definition's id, unless one of the four checks refuses it. */
  function Define(v: Log, name: string, signature: string): (r: (Log, Option<uint16>))
  {
    var sig := ParseSignature(signature);
    if sig.None? || |v.events| >= MAX_EVENTS || '\"' in name || FindEvent(v.events, name).Some?
    then (v, None)
    else (v.(events := v.events + [EventDef(name, sig.value)]), Some(|v.events|))
  }

  function DefineStatistic(v: Log, name: string, signature: string): Log
  {
    if signature != "i" && signature != "x" then v
    else
      var (w, id) := Define(v, name, signature);
      if id.None? then v else AddStatistic(w, id.value, if signature == "i" then Int(0) else Int64(0))
  }

  function AddStatistic(v: Log, id: uint16, zero: Arg): Log {
    v.(stats := v.stats + [Statistic(id, zero, zero, false, false)])
  }

  /** lookup_event: an unknown name or a different signature discards the event. */
  function LookupEvent(v: Log, name: string, sig: Signature): (r: Option<uint16>)
    requires |v.events| <= MAX_EVENTS
    ensures r.Some? ==> r.value < |v.events| && v.events[r.value] == EventDef(name, sig)
  {
    var i := FindEvent(v.events, name);
    if i.Some? && v.events[i.value].sig == sig then Some(i.value) else None
  }

  /** The index in statistics of the one with the given event name. */
  function FindStatistic(stats: seq<Statistic>, events: seq<EventDef>, name: string): (r: Option<nat>)
    requires forall s :: s in stats ==> s.event < |events|
    ensures r.Some? ==> r.value < |stats| && events[stats[r.value].event].name == name
    ensures r.None? ==> forall i :: 0 <= i < |stats| ==> events[stats[i].event].name != name
  {
    if stats == [] then None
    else if events[stats[|stats| - 1].event].name == name then Some(|stats| - 1)
    else FindStatistic(stats[..|stats| - 1], events, name)
  }

  /** shell_perf_log_update_statistic_i and _x. */
  function Update(v: Log, name: string, value: Arg): Log
    requires StatisticsOk(v)
  {
    var i := FindStatistic(v.stats, v.events, name);
    if i.None? || v.events[v.stats[i.value].event].sig != value.Sig() then v
    else v.(stats := v.stats[i.value := v.stats[i.value].(current := value, initialized := true)])
  }

  // ---- Recording ------------------------------------------------------------

  /** Next-fit: the record goes into the tail block, or into a fresh one when it does not fit. */
  function Append(blocks: seq<seq<Record>>, r: Record): seq<seq<Record>>
  {
    var n := |blocks| - 1;
    if blocks == [] || RecordSize(r.arg) + BlockSize(blocks[n]) > BLOCK_SIZE
    then blocks + [[r]]
    else blocks[n := blocks[n] + [r]]
  }

  /** An event is stored iff the log is enabled and its record fits into one block. */
  predicate Accepts(v: Log, arg: Arg) {
    v.enabled && RecordSize(arg) <= BLOCK_SIZE
  }

  predicate NeedsEscape(last: int, now: int) {
    now > last + MAX_DELTA
  }

  function Delta(last: int, now: int): uint32 {
    if NeedsEscape(last, now) || now < last then 0 else now - last
  }

  function Push(v: Log, r: Record): Log {
    v.(blocks := Append(v.blocks, r))
  }

  /** The perf.setTime record written before an event whose delta does not fit into 32 bits. */
  function Escape(v: Log, now: Clock): Log {
    if NeedsEscape(v.lastTime, now) then Push(v, Record(0, SET_TIME, Int64(now))) else v
  }

  /** record_event. */
  function RecordEvent(v: Log, now: Clock, id: uint16, arg: Arg): Log
  {
    if !Accepts(v, arg) then v
    else Push(Escape(v, now), Record(Delta(v.lastTime, now), id, arg)).(lastTime := now)
  }

  /** shell_perf_log_event, _i, _x and _s. */
  function LogEvent(v: Log, now: Clock, name: string, arg: Arg): Log
    requires |v.events| <= MAX_EVENTS
  {
    var id := LookupEvent(v, name, arg.Sig());
    if id.None? then v else RecordEvent(v, now, id.value, arg)
  }

  // ---- Collecting statistics ------------------------------------------------

  predicate Due(s: Statistic) {
    s.initialized && (!s.recorded || s.current != s.last)
  }

  /** The body of the loop over statistics, for statistic i. */
  function CollectOne(v: Log, now: Clock, i: nat): Log
    requires i < |v.stats|
  {
    var s := v.stats[i];
    if !Due(s) then v
    else RecordEvent(v, now, s.event, s.current).(stats := v.stats[i := s.(last := s.current, recorded := true)])
  }

  /** The loop over the first n statistics. */
  function CollectFirst(v: Log, now: Clock, n: nat): (w: Log)
    requires n <= |v.stats|
    ensures w.events == v.events && w.enabled == v.enabled && |w.stats| == |v.stats| && w.startTime == v.startTime
  {
    if n == 0 then v else CollectOne(CollectFirst(v, now, n - 1), now, n - 1)
  }

  /** What a statistics callback, or any other caller, may do to the log between two collections. */
  datatype Action =
    | DefineAction(name: string, signature: string)
    | DefineStatisticAction(name: string, signature: string)
    | EnableAction(on: bool)
    | LogAction(now: Clock, name: string, arg: Arg)
    | UpdateAction(name: string, value: Arg)

  /** One call of the log's interface. A collection runs the callbacks' actions, in order. */
  datatype Op =
    | Do(action: Action)
    | Collect(now: Clock, took: int64, callbacks: seq<Action>)

  function Act(v: Log, a: Action): (w: Log)
    requires Inv(v)
  {
    match a
    case DefineAction(name, signature) => Define(v, name, signature).0
    case DefineStatisticAction(name, signature) => DefineStatistic(v, name, signature)
    case EnableAction(on) => v.(enabled := on)
    case LogAction(now, name, arg) => LogEvent(v, now, name, arg)
    case UpdateAction(name, value) => Update(v, name, value)
  }

  /** shell_perf_log_collect_statistics after the callbacks have run. */
  function Finish(v: Log, now: Clock, took: int64): Log
  {
    RecordEvent(CollectFirst(v, now, |v.stats|), now, STATISTICS_COLLECTED, Int64(took))
  }

  // ---- Invariant ------------------------------------------------------------

  predicate RecordOk(events: seq<EventDef>, r: Record) {
    r.id < |events| && events[r.id].sig == r.arg.Sig()
  }

  ghost predicate NamesDistinct(events: seq<EventDef>) {
    forall i, j :: 0 <= i < j < |events| ==> events[i].name != events[j].name
  }

  ghost predicate EventsOk(v: Log) {
    2 <= |v.events| <= MAX_EVENTS && v.events[..2] == BUILTIN && NamesDistinct(v.events)
  }

  ghost predicate StatisticOk(events: seq<EventDef>, s: Statistic) {
    && 2 <= s.event < |events|
    && (events[s.event].sig.IntArgument? || events[s.event].sig.Int64Argument?)
    && s.current.Sig() == s.last.Sig() == events[s.event].sig
    && (s.recorded ==> s.initialized)
  }

  ghost predicate StatisticsOk(v: Log) {
    && (forall i :: 0 <= i < |v.stats| ==> StatisticOk(v.events, v.stats[i]))
    && (forall i, j :: 0 <= i < j < |v.stats| ==> v.stats[i].event != v.stats[j].event)
  }

  /** Every record of the chain names a defined event and carries that event's argument type. */
  ghost predicate RecordsOk(v: Log) {
    forall b, k :: 0 <= b < |v.blocks| && 0 <= k < |v.blocks[b]| ==> RecordOk(v.events, v.blocks[b][k])
  }

  /** Blocks are nonempty, hold at most BLOCK_SIZE bytes, and no two neighbours would fit into one. */
  ghost predicate Packed(blocks: seq<seq<Record>>) {
    && (forall b :: 0 <= b < |blocks| ==> blocks[b] != [] && BlockSize(blocks[b]) <= BLOCK_SIZE)
    && (forall b :: 0 < b < |blocks| ==> BlockSize(blocks[b - 1]) + BlockSize(blocks[b]) > BLOCK_SIZE)
  }

  ghost predicate Inv(v: Log) {
    EventsOk(v) && StatisticsOk(v) && RecordsOk(v) && Packed(v.blocks)
  }

  // ---- Replay ---------------------------------------------------------------

  datatype Event = Event(time: int, def: EventDef, arg: Arg)

  function Flat(blocks: seq<seq<Record>>): seq<Record> {
    if blocks == [] then [] else Flat(blocks[..|blocks| - 1]) + blocks[|blocks| - 1]
  }

  /** The replay's event_time after the records rs. */
  function ReplayClock(rs: seq<Record>, start: int): int
  {
    if rs == [] then start
    else
      var r := rs[|rs| - 1];
      if r.id == SET_TIME && r.arg.Int64? then r.arg.x
      else ReplayClock(rs[..|rs| - 1], start) + r.delta
  }

  /** The events handed to the replay function for the records rs. */
  function ReplayEvents(events: seq<EventDef>, rs: seq<Record>, start: int): seq<Event>
    requires forall r :: r in rs ==> RecordOk(events, r)
  {
    if rs == [] then []
    else
      var r := rs[|rs| - 1];
      assert r in rs && RecordOk(events, r);
      var before := ReplayEvents(events, rs[..|rs| - 1], start);
      if r.id == SET_TIME then before
      else before + [Event(ReplayClock(rs, start), events[r.id], r.arg)]
  }

  lemma {:induction false} FlatOk(v: Log, n: nat)
    requires RecordsOk(v) && n <= |v.blocks|
    ensures forall r :: r in Flat(v.blocks[..n]) ==> RecordOk(v.events, r)
  {
    if n > 0 {
      FlatOk(v, n - 1);
      assert v.blocks[..n][..n - 1] == v.blocks[..n - 1];
      forall r | r in Flat(v.blocks[..n]) ensures RecordOk(v.events, r) {
        if r !in Flat(v.blocks[..n - 1]) {
          var k :| 0 <= k < |v.blocks[n - 1]| && v.blocks[n - 1][k] == r;
        }
      }
    }
  }

  /** shell_perf_log_replay, as a function of the records in the blocks. */
  function Replay(v: Log): seq<Event>
    requires RecordsOk(v)
  {
    FlatOk(v, |v.blocks|);
    assert v.blocks[..|v.blocks|] == v.blocks;
    ReplayEvents(v.events, Flat(v.blocks), v.startTime)
  }
}
