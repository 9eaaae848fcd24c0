/**
 * What callers have asked of the performance log, from their calls alone:
 * which events are defined, whether recording is on, what each statistic was
 * last set to, and so which events a run records. The log keeps to it.
 */
module PerfLogHistory {
  import opened Wrappers

  import opened PerfLogFormat
  import opened PerfLogInvariant
  import opened PerfLogModel
  import opened PerfLogReplay

  // ---- From the calls alone -----------------------------------------------------------

  /** Recording is on if it was last switched on. */
  predicate IsOn(actions: seq<Action>) {
    if actions == [] then false
    else
      var a := actions[|actions| - 1];
      if a.EnableAction? then a.on else IsOn(actions[..|actions| - 1])
  }

  /** The actions of an operation: callbacks run only when recording is on as the collection begins. */
  function ActionsOf(before: seq<Action>, op: Op): seq<Action> {
    match op
    case Do(a) => [a]
    case Collect(_, _, callbacks) => if IsOn(before) then callbacks else []
  }

  /** What has been done to the log */
  function Performed(ops: seq<Op>): seq<Action> {
    if ops == [] then []
    else
      var before := Performed(ops[..|ops| - 1]);
      before + ActionsOf(before, ops[|ops| - 1])
  }

  /** The text of a signature */
  function SignatureText(sig: Signature): string {
    match sig
    case NoArgument => ""
    case StringArgument => "s"
    case IntArgument => "i"
    case Int64Argument => "x"
  }

  predicate NameTaken(defs: seq<EventDef>, name: string) {
    exists i :: 0 <= i < |defs| && defs[i].name == name
  }

  /** A definition is refused for a name that is taken or has a quote in it, and once there are 65536. */
  function Definition(defs: seq<EventDef>, name: string, signature: string, allowed: set<Signature>): seq<EventDef> {
    if |defs| >= 65536 || '\"' in name || NameTaken(defs, name) then []
    else if NoArgument in allowed && signature == "" then [EventDef(name, NoArgument)]
    else if StringArgument in allowed && signature == "s" then [EventDef(name, StringArgument)]
    else if IntArgument in allowed && signature == "i" then [EventDef(name, IntArgument)]
    else if Int64Argument in allowed && signature == "x" then [EventDef(name, Int64Argument)]
    else []
  }

  const FOR_EVENTS := {NoArgument, StringArgument, IntArgument, Int64Argument}
  const FOR_STATISTICS := {IntArgument, Int64Argument}

  function NewDefinition(defs: seq<EventDef>, a: Action): seq<EventDef> {
    match a
    case DefineAction(name, signature) => Definition(defs, name, signature, FOR_EVENTS)
    case DefineStatisticAction(name, signature) => Definition(defs, name, signature, FOR_STATISTICS)
    case _ => []
  }

  /** The events that are defined, in the order of their ids */
  function Defined(actions: seq<Action>): seq<EventDef> {
    if actions == [] then
      [EventDef("perf.setTime", Int64Argument), EventDef("perf.statisticsCollected", Int64Argument)]
    else
      var before := Defined(actions[..|actions| - 1]);
      before + NewDefinition(before, actions[|actions| - 1])
  }

  /** Those of them that are statistics */
  function Statistics(actions: seq<Action>): seq<EventDef> {
    if actions == [] then []
    else
      var front := actions[..|actions| - 1];
      var a := actions[|actions| - 1];
      Statistics(front) + if a.DefineStatisticAction? then NewDefinition(Defined(front), a) else []
  }

  /**
   * What a statistic was last set to: the value of the last update for it,
   * after it was defined, with the type it was defined with.
   */
  function Value(actions: seq<Action>, name: string): Option<Arg> {
    if actions == [] then None
    else
      var front := actions[..|actions| - 1];
      var a := actions[|actions| - 1];
      if a.UpdateAction? && a.name == name && EventDef(name, a.value.Sig()) in Statistics(front)
      then Some(a.value) else Value(front, name)
  }

  /** The value of a statistic at the end of the last collection that began with recording on */
  function Marked(ops: seq<Op>, name: string): Option<Arg> {
    if ops == [] then None
    else
      var front := ops[..|ops| - 1];
      if ops[|ops| - 1].Collect? && IsOn(Performed(front)) then Value(Performed(ops), name) else Marked(front, name)
  }

  /** A record of 4 bytes for the time, 2 for the id and the argument fits into a block of 8192 bytes. */
  predicate Fits(arg: Arg) {
    arg.Str? ==> 4 + 2 + |arg.s| + 1 <= 8192
  }

  /** A call that logs an event is heeded if recording is on, the event is defined with this type, and it fits. */
  function Logged(before: seq<Action>, a: Action): seq<Event> {
    if a.LogAction? && IsOn(before) && EventDef(a.name, a.arg.Sig()) in Defined(before) && Fits(a.arg)
    then [Event(a.now, EventDef(a.name, a.arg.Sig()), a.arg)] else []
  }

  function LoggedAll(before: seq<Action>, actions: seq<Action>): seq<Event> {
    if actions == [] then []
    else
      var front := actions[..|actions| - 1];
      LoggedAll(before, front) + Logged(before + front, actions[|actions| - 1])
  }

  /** One statistic in a collection: it is recorded if its value is not the one it had at the collection before. */
  function Changed(front: seq<Op>, actions: seq<Action>, now: int, def: EventDef): seq<Event> {
    var x := Value(actions, def.name);
    if x.Some? && x != Marked(front, def.name) then [Event(now, def, x.value)] else []
  }

  function ChangedAll(front: seq<Op>, actions: seq<Action>, now: int, defs: seq<EventDef>): seq<Event> {
    if defs == [] then []
    else
      var n := |defs| - 1;
      ChangedAll(front, actions, now, defs[..n]) + Changed(front, actions, now, defs[n])
  }

  /** What one more operation records */
  function Records(front: seq<Op>, op: Op): seq<Event> {
    var before := Performed(front);
    match op
    case Do(a) => Logged(before, a)
    case Collect(now, took, callbacks) =>
      if !IsOn(before) then []
      else
        var after := before + callbacks;
        LoggedAll(before, callbacks) +
        if !IsOn(after) then []
        else
          ChangedAll(front, after, now, Statistics(after))
          + [Event(now, EventDef("perf.statisticsCollected", Int64Argument), Int64(took))]
  }

  /** Everything that a run records, in order and with the times of the calls */
  function History(ops: seq<Op>): seq<Event> {
    if ops == [] then []
    else
      var n := |ops| - 1;
      History(ops[..n]) + Records(ops[..n], ops[n])
  }

  // ---- One action more -------------------------------------------------------------------

  lemma Snoc(actions: seq<Action>, a: Action)
    ensures IsOn(actions + [a]) <==> if a.EnableAction? then a.on else IsOn(actions)
    ensures Defined(actions + [a]) == Defined(actions) + NewDefinition(Defined(actions), a)
    ensures Statistics(actions + [a]) ==
            Statistics(actions) + if a.DefineStatisticAction? then NewDefinition(Defined(actions), a) else []
  {
    assert (actions + [a])[..|actions|] == actions;
  }

  lemma ValueSnoc(actions: seq<Action>, a: Action, name: string)
    ensures Value(actions + [a], name) ==
            if a.UpdateAction? && a.name == name && EventDef(name, a.value.Sig()) in Statistics(actions)
            then Some(a.value) else Value(actions, name)
  {
    assert (actions + [a])[..|actions|] == actions;
  }

  lemma OpSnoc(ops: seq<Op>, op: Op)
    ensures Performed(ops + [op]) == Performed(ops) + ActionsOf(Performed(ops), op)
    ensures History(ops + [op]) == History(ops) + Records(ops, op)
  {
    assert (ops + [op])[..|ops|] == ops;
  }

  lemma MarkedSnoc(ops: seq<Op>, op: Op, name: string)
    ensures Marked(ops + [op], name) ==
            if op.Collect? && IsOn(Performed(ops)) then Value(Performed(ops + [op]), name) else Marked(ops, name)
  {
    assert (ops + [op])[..|ops|] == ops;
  }

  /** Only statistics have values, and statistics are defined events. */
  lemma {:induction false} ValueOfStatistic(actions: seq<Action>, name: string)
    ensures Value(actions, name).Some? ==> EventDef(name, Value(actions, name).value.Sig()) in Statistics(actions)
    ensures forall d :: d in Statistics(actions) ==> d in Defined(actions)
  {
    if actions != [] { ValueOfStatistic(actions[..|actions| - 1], name); }
  }

  lemma ValueIsDefined(actions: seq<Action>, name: string)
    ensures Value(actions, name).Some? ==> NameTaken(Defined(actions), name)
  {
    ValueOfStatistic(actions, name);
    if Value(actions, name).Some? {
      assert EventDef(name, Value(actions, name).value.Sig()) in Defined(actions);
    }
  }

  lemma {:induction false} DefinedGrows(actions: seq<Action>, more: seq<Action>)
    ensures Defined(actions) <= Defined(actions + more)
  {
    hide Defined;
    hide NewDefinition;
    if more == [] {
      assert actions + more == actions;
    } else {
      var n := |more| - 1;
      DefinedGrows(actions, more[..n]);
      Snoc(actions + more[..n], more[n]);
      assert actions + more == actions + more[..n] + [more[n]];
    }
  }

  /** A name that is not defined has never been marked. */
  lemma {:induction false} MarkedIsDefined(ops: seq<Op>, name: string)
    ensures Marked(ops, name).Some? ==> NameTaken(Defined(Performed(ops)), name)
  {
    if ops != [] {
      var front := ops[..|ops| - 1];
      MarkedIsDefined(front, name);
      var op := ops[|ops| - 1];
      assert ops == front + [op];
      OpSnoc(front, op);
      MarkedSnoc(front, op, name);
      DefinedGrows(Performed(front), ActionsOf(Performed(front), op));
      ValueOfStatistic(Performed(ops), name);
    }
  }

  // ---- The log keeps to it -------------------------------------------------------------------

  ghost predicate ValueIs(s: Statistic, x: Option<Arg>) {
    s.initialized == x.Some? && (x.Some? ==> s.current == x.value)
  }

  /** Statistic i is the i-th one defined and has the value that it was last set to. */
  ghost predicate StatisticIs(v: Log, actions: seq<Action>, i: nat)
    requires i < |v.stats| == |Statistics(actions)|
  {
    && v.stats[i].event < |v.events|
    && v.events[v.stats[i].event] == Statistics(actions)[i]
    && ValueIs(v.stats[i], Value(actions, Statistics(actions)[i].name))
  }

  ghost predicate Matches(v: Log, actions: seq<Action>) {
    && v.enabled == IsOn(actions)
    && v.events == Defined(actions)
    && |v.stats| == |Statistics(actions)|
    && forall i :: 0 <= i < |v.stats| ==> StatisticIs(v, actions, i)
  }

  ghost predicate MarkIs(s: Statistic, x: Option<Arg>) {
    s.recorded == x.Some? && (x.Some? ==> s.last == x.value)
  }

  ghost predicate MarksMatch(v: Log, ops: seq<Op>) {
    forall i :: 0 <= i < |v.stats| && v.stats[i].event < |v.events| ==>
      MarkIs(v.stats[i], Marked(ops, v.events[v.stats[i].event].name))
  }

  /** The marks of the statistics are as they were, and new statistics have none. */
  ghost predicate MarksKept(v: Log, w: Log) {
    && |v.stats| <= |w.stats|
    && (forall i :: 0 <= i < |v.stats| ==>
          w.stats[i].event == v.stats[i].event && w.stats[i].last == v.stats[i].last
          && w.stats[i].recorded == v.stats[i].recorded)
    && (forall i :: |v.stats| <= i < |w.stats| ==> !w.stats[i].recorded && w.stats[i].event >= |v.events|)
  }

  lemma FindIs(events: seq<EventDef>, name: string)
    ensures FindEvent(events, name).Some? <==> NameTaken(events, name)
  {
  }

  lemma DefineMatches(v: Log, name: string, signature: string)
    requires Inv(v)
    ensures Define(v, name, signature).0.events == v.events + Definition(v.events, name, signature, FOR_EVENTS)
    ensures Define(v, name, signature).1 ==
            if Definition(v.events, name, signature, FOR_EVENTS) == [] then None else Some(|v.events|)
  {
    hide Inv;
    FindIs(v.events, name);
    assert v.events + [] == v.events;
    assert NoArgument in FOR_EVENTS && StringArgument in FOR_EVENTS;
    assert IntArgument in FOR_EVENTS && Int64Argument in FOR_EVENTS;
  }

  lemma LookupIs(v: Log, name: string, sig: Signature)
    requires Inv(v)
    ensures |v.events| <= MAX_EVENTS
    ensures LookupEvent(v, name, sig).Some? <==> EventDef(name, sig) in v.events
  {
    if EventDef(name, sig) in v.events {
      var j :| 0 <= j < |v.events| && v.events[j] == EventDef(name, sig);
      FindEventUnique(v.events, j);
    }
  }

  lemma FitsIs(arg: Arg)
    ensures RecordSize(arg) <= BLOCK_SIZE <==> Fits(arg)
  {
  }

  /** Everything but the blocks and the clock is as it was. */
  lemma RecordKeeps(v: Log, now: Clock, id: uint16, arg: Arg)
    ensures var w := RecordEvent(v, now, id, arg);
            w.events == v.events && w.stats == v.stats && w.enabled == v.enabled
  {
  }

  /** Two statistics with one name are the same. */
  lemma StatisticsDistinct(v: Log, i: nat, j: nat)
    requires Inv(v) && i < |v.stats| && j < |v.stats| && v.stats[i].event < |v.events| && v.stats[j].event < |v.events|
    requires v.events[v.stats[i].event].name == v.events[v.stats[j].event].name
    ensures i == j
  {
  }

  lemma EventsOfStatistics(v: Log)
    requires Inv(v)
    ensures StatisticsOk(v) && (forall s :: s in v.stats ==> s.event < |v.events|)
    ensures |v.events| <= MAX_EVENTS
  {
    forall i | 0 <= i < |v.stats| ensures v.stats[i].event < |v.events| { assert StatisticOk(v.events, v.stats[i]); }
  }

  lemma UpdateMatches(v: Log, actions: seq<Action>, name: string, value: Arg)
    requires Inv(v) && StatisticsOk(v) && Matches(v, actions)
    ensures var w := Update(v, name, value);
            Matches(w, actions + [UpdateAction(name, value)]) && MarksKept(v, w)
  {
    hide Inv;
    hide StatisticsOk;
    hide FindStatistic;
    hide Statistics;
    hide Value;
    hide Defined;
    hide IsOn;
    hide ValueIs;
    EventsOfStatistics(v);
    var a := UpdateAction(name, value);
    var w := Update(v, name, value);
    Snoc(actions, a);
    forall i | 0 <= i < |v.stats| ensures StatisticIs(w, actions + [a], i) {
      assert StatisticIs(v, actions, i);
      UpdatedStatistic(v, actions, name, value, i);
    }
  }

  lemma UpdatedStatistic(v: Log, actions: seq<Action>, name: string, value: Arg, i: nat)
    requires Inv(v) && StatisticsOk(v) && Matches(v, actions) && i < |v.stats|
    ensures var w := Update(v, name, value);
            && |w.stats| == |v.stats| && w.stats[i].event == v.stats[i].event
            && ValueIs(w.stats[i], Value(actions + [UpdateAction(name, value)], Statistics(actions)[i].name))
  {
    hide Inv;
    hide StatisticsOk;
    hide FindStatistic;
    hide Statistics;
    hide Value;
    hide Defined;
    hide IsOn;
    EventsOfStatistics(v);
    var d := Statistics(actions)[i];
    ValueSnoc(actions, UpdateAction(name, value), d.name);
    assert StatisticIs(v, actions, i);
    var k := FindStatistic(v.stats, v.events, name);
    if k.Some? {
      assert StatisticIs(v, actions, k.value);
      assert Statistics(actions)[k.value] in Statistics(actions);
      if d.name == name { StatisticsDistinct(v, i, k.value); }
    }
    if d.name == name && EventDef(name, value.Sig()) in Statistics(actions) {
      var j :| 0 <= j < |v.stats| && Statistics(actions)[j] == EventDef(name, value.Sig());
      assert StatisticIs(v, actions, j);
      StatisticsDistinct(v, i, j);
    }
  }

  lemma DefineStatisticMatches(v: Log, actions: seq<Action>, name: string, signature: string)
    requires Inv(v) && Matches(v, actions)
    ensures var w := DefineStatistic(v, name, signature);
            Matches(w, actions + [DefineStatisticAction(name, signature)]) && MarksKept(v, w)
  {
    hide Inv;
    hide Statistics;
    hide Value;
    hide Defined;
    hide IsOn;
    hide NewDefinition;
    hide Define;
    var a := DefineStatisticAction(name, signature);
    var w := DefineStatistic(v, name, signature);
    DefineStatisticIs(v, name, signature);
    Snoc(actions, a);
    EventsOfStatistics(v);
    forall i | 0 <= i < |w.stats| ensures StatisticIs(w, actions + [a], i) {
      ValueSnoc(actions, a, Statistics(actions + [a])[i].name);
      if i < |v.stats| {
        assert StatisticIs(v, actions, i) && w.stats[..|v.stats|][i] == w.stats[i];
      } else {
        NothingForNew(actions, a);
      }
    }
  }

  lemma DefineStatisticIs(v: Log, name: string, signature: string)
    requires Inv(v)
    ensures var w := DefineStatistic(v, name, signature);
            var more := NewDefinition(v.events, DefineStatisticAction(name, signature));
            && w.events == v.events + more && w.enabled == v.enabled && |more| <= 1
            && (more == [] ==> w.stats == v.stats)
            && (more != [] ==>
                  && |w.stats| == |v.stats| + 1 && w.stats[..|v.stats|] == v.stats
                  && w.stats[|v.stats|].event == |v.events|
                  && !w.stats[|v.stats|].initialized && !w.stats[|v.stats|].recorded)
  {
    hide Inv;
    hide FindEvent;
    DefineMatches(v, name, signature);
    assert IntArgument in FOR_STATISTICS && Int64Argument in FOR_STATISTICS;
    assert NoArgument !in FOR_STATISTICS && StringArgument !in FOR_STATISTICS;
    assert IntArgument in FOR_EVENTS && Int64Argument in FOR_EVENTS;
  }

  lemma NothingForNew(actions: seq<Action>, a: Action)
    requires NewDefinition(Defined(actions), a) != []
    ensures |NewDefinition(Defined(actions), a)| == 1
    ensures Value(actions, NewDefinition(Defined(actions), a)[0].name).None?
    ensures !NameTaken(Defined(actions), NewDefinition(Defined(actions), a)[0].name)
  {
    ValueIsDefined(actions, NewDefinition(Defined(actions), a)[0].name);
  }

  lemma DefineEventMatches(v: Log, actions: seq<Action>, name: string, signature: string)
    requires Inv(v) && Matches(v, actions)
    ensures var w := Define(v, name, signature).0;
            Matches(w, actions + [DefineAction(name, signature)]) && MarksKept(v, w)
  {
    hide Inv;
    hide Statistics;
    hide Value;
    hide Defined;
    hide IsOn;
    hide ValueIs;
    hide Definition;
    hide FindEvent;
    var a := DefineAction(name, signature);
    var w := Define(v, name, signature).0;
    DefineMatches(v, name, signature);
    Snoc(actions, a);
    forall i | 0 <= i < |w.stats| ensures StatisticIs(w, actions + [a], i) {
      assert StatisticIs(v, actions, i);
      ValueSnoc(actions, a, Statistics(actions)[i].name);
    }
  }

  /** Logging and switching change nothing about definitions and values. */
  lemma OtherMatches(v: Log, w: Log, actions: seq<Action>, a: Action)
    requires Matches(v, actions) && (a.LogAction? || a.EnableAction?)
    requires w.events == v.events && w.stats == v.stats
    requires w.enabled == if a.EnableAction? then a.on else v.enabled
    ensures Matches(w, actions + [a]) && MarksKept(v, w)
  {
    hide Statistics;
    hide Value;
    hide Defined;
    hide IsOn;
    hide ValueIs;
    Snoc(actions, a);
    forall i | 0 <= i < |w.stats| ensures StatisticIs(w, actions + [a], i) {
      assert StatisticIs(v, actions, i);
      ValueSnoc(actions, a, Statistics(actions)[i].name);
    }
  }

  lemma ActMatches(v: Log, actions: seq<Action>, a: Action)
    requires Inv(v) && Matches(v, actions)
    ensures Inv(Act(v, a)) && Matches(Act(v, a), actions + [a]) && MarksKept(v, Act(v, a))
  {
    hide Inv;
    hide Matches;
    hide MarksKept;
    hide RecordEvent;
    hide LookupEvent;
    ActInv(v, a);
    EventsOfStatistics(v);
    match a
    case DefineAction(name, signature) => DefineEventMatches(v, actions, name, signature);
    case DefineStatisticAction(name, signature) => DefineStatisticMatches(v, actions, name, signature);
    case EnableAction(on) => OtherMatches(v, Act(v, a), actions, a);
    case LogAction(now, name, arg) =>
      var id := LookupEvent(v, name, arg.Sig());
      if id.Some? { RecordKeeps(v, now, id.value, arg); }
      OtherMatches(v, Act(v, a), actions, a);
    case UpdateAction(name, value) => UpdateMatches(v, actions, name, value);
  }

  lemma TraceIsLogged(v: Log, actions: seq<Action>, a: Action)
    requires Inv(v) && v.enabled == IsOn(actions) && v.events == Defined(actions)
    ensures ActionTrace(v, a) == Logged(actions, a)
  {
    hide Inv;
    hide Defined;
    hide IsOn;
    hide FindEvent;
    hide RecordSize;
    if a.LogAction? {
      LookupIs(v, a.name, a.arg.Sig());
      FitsIs(a.arg);
    }
  }

  lemma MarksKeptMore(u: Log, v: Log, w: Log)
    requires MarksKept(u, v) && MarksKept(v, w) && |u.events| <= |v.events|
    ensures MarksKept(u, w)
  {
  }

  lemma {:induction false} ActsMatch(v: Log, before: seq<Action>, actions: seq<Action>)
    requires Inv(v) && Matches(v, before)
    ensures Matches(Acts(v, actions), before + actions) && MarksKept(v, Acts(v, actions))
    ensures ActionsTrace(v, actions) == LoggedAll(before, actions)
  {
    hide Inv;
    hide MarksKept;
    hide Matches;
    hide Act;
    hide ActionTrace;
    hide Logged;
    hide Defined;
    hide IsOn;
    if actions == [] {
      assert before + actions == before;
      NothingKept(v);
    } else {
      var n := |actions| - 1;
      ActsMatch(v, before, actions[..n]);
      var u := Acts(v, actions[..n]);
      ActMatches(u, before + actions[..n], actions[n]);
      MatchesMeans(v, before);
      MatchesMeans(u, before + actions[..n]);
      TraceIsLogged(u, before + actions[..n], actions[n]);
      DefinedGrows(before, actions[..n]);
      MarksKeptMore(v, u, Acts(v, actions));
      assert before + actions == before + actions[..n] + [actions[n]];
    }
  }

  lemma NothingKept(v: Log)
    ensures MarksKept(v, v)
  {
  }

  lemma MatchesMeans(v: Log, actions: seq<Action>)
    requires Matches(v, actions)
    ensures v.enabled == IsOn(actions) && v.events == Defined(actions)
  {
  }

  // ---- Collections ----------------------------------------------------------------------------

  /** The loop over statistics marks those it passes with their values. */
  lemma {:induction false} CollectFirstMarks(v: Log, now: Clock, n: nat)
    requires n <= |v.stats|
    ensures var w := CollectFirst(v, now, n);
            forall i :: 0 <= i < |v.stats| ==>
              w.stats[i] ==
              if i < n && Due(v.stats[i]) then v.stats[i].(last := v.stats[i].current, recorded := true) else v.stats[i]
  {
    hide RecordEvent;
    if n > 0 {
      CollectFirstMarks(v, now, n - 1);
      var u := CollectFirst(v, now, n - 1);
      RecordKeeps(u, now, u.stats[n - 1].event, u.stats[n - 1].current);
    }
  }

  lemma FinishKeeps(v: Log, now: Clock, took: int64)
    ensures var w := Finish(v, now, took);
            && w.events == v.events && w.enabled == v.enabled && |w.stats| == |v.stats|
            && forall i :: 0 <= i < |v.stats| ==>
                 w.stats[i] ==
                 if Due(v.stats[i]) then v.stats[i].(last := v.stats[i].current, recorded := true) else v.stats[i]
  {
    hide CollectFirst;
    hide RecordEvent;
    CollectFirstMarks(v, now, |v.stats|);
    RecordKeeps(CollectFirst(v, now, |v.stats|), now, STATISTICS_COLLECTED, Int64(took));
  }

  /** Marks stay as long as no collection ends, and what has been defined since has none. */
  lemma MarksStay(v: Log, w: Log, ops: seq<Op>)
    requires Inv(v) && Inv(w) && MarksMatch(v, ops) && MarksKept(v, w) && v.events <= w.events
    requires v.events == Defined(Performed(ops))
    ensures MarksMatch(w, ops)
  {
    hide Defined;
    hide Marked;
    EventsOfStatistics(v);
    forall i | 0 <= i < |w.stats| && w.stats[i].event < |w.events|
      ensures MarkIs(w.stats[i], Marked(ops, w.events[w.stats[i].event].name))
    {
      if i < |v.stats| {
        assert v.stats[i] in v.stats;
        assert v.events[v.stats[i].event] == w.events[w.stats[i].event];
      } else {
        MarkedIsDefined(ops, w.events[w.stats[i].event].name);
      }
    }
  }

  lemma FinishMatches(v: Log, actions: seq<Action>, now: Clock, took: int64, ops: seq<Op>, op: Op)
    requires Inv(v) && Matches(v, actions) && op.Collect? && IsOn(Performed(ops)) && Performed(ops + [op]) == actions
    ensures Matches(Finish(v, now, took), actions) && MarksMatch(Finish(v, now, took), ops + [op])
  {
    hide Inv;
    hide Finish;
    hide Statistics;
    hide Defined;
    hide Value;
    hide Marked;
    hide Performed;
    hide IsOn;
    FinishKeeps(v, now, took);
    var w := Finish(v, now, took);
    forall i | 0 <= i < |w.stats| ensures StatisticIs(w, actions, i) { assert StatisticIs(v, actions, i); }
    forall i | 0 <= i < |w.stats| && w.stats[i].event < |w.events|
      ensures MarkIs(w.stats[i], Marked(ops + [op], w.events[w.stats[i].event].name))
    {
      MarkedSnoc(ops, op, w.events[w.stats[i].event].name);
      assert StatisticIs(v, actions, i);
      RecordedWasSet(v, i);
    }
  }

  lemma RecordedWasSet(v: Log, i: nat)
    requires Inv(v) && i < |v.stats|
    ensures v.stats[i].recorded ==> v.stats[i].initialized
  {
    assert StatisticOk(v.events, v.stats[i]);
  }

  lemma StatisticFits(v: Log, i: nat)
    requires Inv(v) && i < |v.stats|
    ensures RecordSize(v.stats[i].current) <= BLOCK_SIZE
  {
    assert StatisticOk(v.events, v.stats[i]);
  }

  lemma StatisticIsChanged(v: Log, ops: seq<Op>, actions: seq<Action>, now: Clock, i: nat)
    requires Inv(v) && Matches(v, actions) && MarksMatch(v, ops) && i < |v.stats| && v.enabled
    ensures StatisticTrace(v, now, i) == Changed(ops, actions, now, Statistics(actions)[i])
  {
    hide Inv;
    hide Statistics;
    hide Defined;
    hide Value;
    hide Marked;
    hide RecordSize;
    assert StatisticIs(v, actions, i);
    StatisticFits(v, i);
  }

  lemma {:induction false} StatisticsAreChanged(v: Log, ops: seq<Op>, actions: seq<Action>, now: Clock, n: nat)
    requires Inv(v) && Matches(v, actions) && MarksMatch(v, ops) && n <= |v.stats| && v.enabled
    ensures |v.stats| == |Statistics(actions)|
    ensures StatisticsTrace(v, now, n) == ChangedAll(ops, actions, now, Statistics(actions)[..n])
  {
    hide Inv;
    hide Statistics;
    hide Defined;
    hide Changed;
    hide StatisticTrace;
    if n > 0 {
      StatisticsAreChanged(v, ops, actions, now, n - 1);
      StatisticIsChanged(v, ops, actions, now, n - 1);
      assert Statistics(actions)[..n][..n - 1] == Statistics(actions)[..n - 1];
    }
  }

  lemma {:induction false} NothingWhenOff(v: Log, now: Clock, n: nat)
    requires Inv(v) && n <= |v.stats| && !v.enabled
    ensures StatisticsTrace(v, now, n) == []
  {
    hide Inv;
    if n > 0 { NothingWhenOff(v, now, n - 1); }
  }

  lemma CollectedIs(v: Log, now: Clock, took: int64)
    requires Inv(v)
    ensures STATISTICS_COLLECTED < |v.events|
    ensures Recorded(v, now, STATISTICS_COLLECTED, Int64(took)) ==
            if v.enabled then [Event(now, EventDef("perf.statisticsCollected", Int64Argument), Int64(took))] else []
  {
    assert v.events[1] == v.events[..2][1];
  }

  // ---- Runs -----------------------------------------------------------------------------------

  lemma ApplyMatches(v: Log, ops: seq<Op>, op: Op)
    requires Inv(v) && Matches(v, Performed(ops)) && MarksMatch(v, ops)
    ensures Matches(Apply(v, op), Performed(ops + [op])) && MarksMatch(Apply(v, op), ops + [op])
  {
    hide Inv;
    hide Matches;
    hide MarksMatch;
    hide MarksKept;
    hide Act;
    hide Finish;
    hide Performed;
    hide IsOn;
    hide Defined;
    var before := Performed(ops);
    OpSnoc(ops, op);
    MatchesMeans(v, before);
    match op
    case Do(a) =>
      ActMatches(v, before, a);
      MatchesMeans(Act(v, a), before + [a]);
      DefinedGrows(before, [a]);
      MarksStay(v, Act(v, a), ops);
      SameMarks(Act(v, a), ops, op);
    case Collect(now, took, callbacks) =>
      if v.enabled {
        ActsMatch(v, before, callbacks);
        FinishMatches(Acts(v, callbacks), before + callbacks, now, took, ops, op);
      } else {
        assert before + [] == before;
        SameMarks(v, ops, op);
      }
  }

  lemma SameMarks(v: Log, ops: seq<Op>, op: Op)
    requires MarksMatch(v, ops) && (op.Collect? ==> !IsOn(Performed(ops)))
    ensures MarksMatch(v, ops + [op])
  {
    hide Marked;
    forall i | 0 <= i < |v.stats| && v.stats[i].event < |v.events|
      ensures MarkIs(v.stats[i], Marked(ops + [op], v.events[v.stats[i].event].name))
    {
      MarkedSnoc(ops, op, v.events[v.stats[i].event].name);
    }
  }

  lemma TraceIsRecords(v: Log, ops: seq<Op>, op: Op)
    requires Inv(v) && Matches(v, Performed(ops)) && MarksMatch(v, ops)
    ensures OpTrace(v, op) == Records(ops, op)
  {
    hide Inv;
    hide Matches;
    hide MarksMatch;
    hide MarksKept;
    hide Performed;
    hide IsOn;
    hide Defined;
    hide Statistics;
    hide Recorded;
    hide ActionTrace;
    hide Logged;
    hide ActionsTrace;
    hide LoggedAll;
    hide ChangedAll;
    hide StatisticsTrace;
    var before := Performed(ops);
    MatchesMeans(v, before);
    match op
    case Do(a) => TraceIsLogged(v, before, a);
    case Collect(now, took, callbacks) =>
      if v.enabled {
        ActsMatch(v, before, callbacks);
        var u := Acts(v, callbacks);
        MatchesMeans(u, before + callbacks);
        DefinedGrows(before, callbacks);
        MarksStay(v, u, ops);
        CollectedIs(u, now, took);
        if u.enabled {
          StatisticsAreChanged(u, ops, before + callbacks, now, |u.stats|);
          assert Statistics(before + callbacks)[..|u.stats|] == Statistics(before + callbacks);
          PerfLogReplay.Assoc(LoggedAll(before, callbacks), StatisticsTrace(u, now, |u.stats|),
                              Recorded(u, now, STATISTICS_COLLECTED, Int64(took)));
        } else {
          NothingWhenOff(u, now, |u.stats|);
        }
      }
  }

  lemma InitMatches(start: Clock)
    ensures Matches(Init(start), []) && MarksMatch(Init(start), [])
  {
  }

  /** What a run has defined, set and recorded is what its calls say. */
  lemma {:induction false} RunMatches(start: Clock, ops: seq<Op>)
    requires Inv(Init(start))
    ensures Matches(Run(Init(start), ops), Performed(ops)) && MarksMatch(Run(Init(start), ops), ops)
    ensures RunTrace(Init(start), ops) == History(ops)
  {
    hide Inv;
    hide Matches;
    hide MarksMatch;
    hide Apply;
    hide OpTrace;
    hide Records;
    if ops == [] {
      InitMatches(start);
    } else {
      var n := |ops| - 1;
      assert ops == ops[..n] + [ops[n]];
      RunMatches(start, ops[..n]);
      ApplyMatches(Run(Init(start), ops[..n]), ops[..n], ops[n]);
      TraceIsRecords(Run(Init(start), ops[..n]), ops[..n], ops[n]);
    }
  }

  /**
   * The replay of a run in terms of the calls: it is what they have recorded,
   * shown at the times that the differences add up to; and it is exactly that
   * if and only if no recorded event has an earlier time than the one before
   * it and nobody has logged perf.setTime.
   */
  lemma ReplayOfCalls(start: Clock, ops: seq<Op>)
    ensures Inv(Init(start)) && Replay(Run(Init(start), ops)) == Shown(start, History(ops))
    ensures Replay(Run(Init(start), ops)) == History(ops) <==>
            NoSetTime(History(ops)) && TimesNeverStepBack(start, History(ops))
  {
    ReplayLaw(start, ops);
    RunMatches(start, ops);
    RoundTrip(start, ops);
  }
}
