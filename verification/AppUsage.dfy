/**
 * The usage object: the iterator over its nested tables and what walks them
 * (src/shell-app-usage.c).
 */
module AppUsage {
  import opened Lists
  import opened Wrappers

  import opened AppUsageModel

  /** Every record of a table is either visited or left, and none was visited twice. */
  ghost predicate Exhaustive(t: Table, visited: seq<(string, string)>, left: set<(string, string)>) {
    && (forall j, k :: 0 <= j < k < |visited| ==> visited[j] != visited[k])
    && (forall c, i :: (c, i) in visited ==> Holds(t, c, i))
    && (forall c, i :: (c, i) in left ==> Holds(t, c, i) && (c, i) !in visited)
    && (forall c, i :: Holds(t, c, i) ==> (c, i) in visited || (c, i) in left)
  }

  ghost predicate SeenContext(visited: seq<(string, string)>, c: string) {
    exists k :: 0 <= k < |visited| && visited[k].0 == c
  }

  /** The context was the last one or was not there before. */
  ghost predicate SameOrNew(visited: seq<(string, string)>, c: string) {
    visited == [] || visited[|visited| - 1].0 == c || !SeenContext(visited, c)
  }

  class UsageIterator {
    const usage: ShellAppUsage
    ghost const first: Table
    var inContext: bool
    var contextsLeft: set<string>
    var contextId: string
    var idsLeft: set<string>
    ghost var visited: seq<(string, string)>
    ghost var left: set<(string, string)>

    /** What is left: the rest of the current context, and the contexts not entered yet. */
    ghost predicate LeftOver()
      reads this
    {
      && contextsLeft <= first.Keys
      && (inContext ==> contextId in first && contextId !in contextsLeft)
      && (forall c, i :: (c, i) in left <==> (inContext && c == contextId && i in idsLeft)
                                             || (c in contextsLeft && Holds(first, c, i)))
    }

    ghost predicate InOrder()
      reads this
    {
      && (!inContext ==> visited == [])
      && (forall c :: c in contextsLeft ==> !SeenContext(visited, c))
      && SameOrNew(visited, contextId)
    }

    /** The tables may lose visited records while they are walked, and nothing else. */
    ghost predicate Walks()
      reads this, usage
    {
      && (forall c :: c in usage.table <==> c in first)
      && (forall c :: c in contextsLeft && c in first ==> c in usage.table && usage.table[c].Keys == first[c].Keys)
      && (forall c, i :: (c, i) in left ==> Holds(usage.table, c, i))
    }

    ghost predicate Valid()
      reads this, usage
    {
      Exhaustive(first, visited, left) && LeftOver() && InOrder() && Walks()
    }

    /** usage_iterator_init */
    constructor (usage: ShellAppUsage)
      ensures Valid() && this.usage == usage && first == usage.table && visited == []
    {
      this.usage := usage;
      first := usage.table;
      inContext := false;
      contextsLeft := usage.table.Keys;
      contextId := "";
      idsLeft := {};
      visited := [];
      left := set c, i | c in usage.table && i in usage.table[c] :: (c, i);
    }

    /** Enters the next context of the outer table. */
    method NextContext() returns (more: bool)
      requires Valid() && (!inContext || idsLeft == {})
      modifies this
      ensures Valid() && visited == old(visited) && left == old(left)
      ensures more ==> inContext && contextsLeft < old(contextsLeft)
      ensures !more ==> forall c, i :: (c, i) !in left
    {
      hide Exhaustive;
      hide SeenContext;
      if contextsLeft == {} { return false; }
      var c :| c in contextsLeft;
      contextsLeft := contextsLeft - {c};
      inContext := true;
      contextId := c;
      idsLeft := usage.table[c].Keys;
      return true;
    }

    /** Takes a record of the current context. */
    method NextId() returns (id: string)
      requires Valid() && inContext && idsLeft != {}
      modifies this
      ensures Valid() && inContext && contextId == old(contextId)
      ensures visited == old(visited) + [(contextId, id)] && left == old(left) - {(contextId, id)}
      ensures (contextId, id) in old(left) && (contextId, id) !in old(visited) && Holds(usage.table, contextId, id)
      ensures SameOrNew(old(visited), contextId)
    {
      id :| id in idsLeft;
      assert (contextId, id) in left;
      idsLeft := idsLeft - {id};
      left := left - {(contextId, id)};
      visited := visited + [(contextId, id)];
    }

    /**
     * usage_iterator_next: a record that was not visited yet, or None when
     * all were. Its context is the one before or one not seen before.
     */
    method Next() returns (r: Option<(string, string)>)
      requires Valid()
      modifies this
      ensures Valid()
      ensures r.Some? ==> left < old(left)
      ensures r.None? ==> visited == old(visited) && left == old(left)
      ensures r.None? ==> forall c, i :: Holds(first, c, i) <==> (c, i) in visited
      ensures r.Some? ==> visited == old(visited) + [r.value] && r.value !in old(visited)
      ensures r.Some? ==> Holds(usage.table, r.value.0, r.value.1) && inContext && contextId == r.value.0
      ensures r.Some? ==> SameOrNew(old(visited), r.value.0)
    {
      var nextContext := !inContext || idsLeft == {};
      while nextContext
        invariant Valid() && visited == old(visited) && left == old(left)
        invariant nextContext == (!inContext || idsLeft == {})
        decreases contextsLeft
      {
        var more := NextContext();
        if !more { return None; }
        nextContext := idsLeft == {};
      }
      var id := NextId();
      r := Some((contextId, id));
    }

    /** Writing through the record that the iterator is at */
    method Write(id: string, u: UsageData)
      requires Valid() && inContext && Holds(usage.table, contextId, id)
      modifies usage`table
      ensures Valid() && usage.table == old(usage.table)[contextId := old(usage.table)[contextId][id := u]]
    {
      hide Exhaustive;
      hide SeenContext;
      usage.table := usage.table[contextId := usage.table[contextId][id := u]];
    }

    /** usage_iterator_remove; that there is a current context is the function's own assertion. */
    method Remove(id: string)
      requires Valid() && inContext && Holds(usage.table, contextId, id) && (contextId, id) in visited
      modifies usage`table
      ensures Valid() && usage.table == old(usage.table)[contextId := old(usage.table)[contextId] - {id}]
    {
      hide SeenContext;
      usage.table := usage.table[contextId := usage.table[contextId] - {id}];
    }
  }

  /** `done` of the records have been halved. */
  ghost predicate Halving(now: Table, was: Table, done: seq<(string, string)>) {
    && now.Keys == was.Keys
    && (forall c :: c in was ==> now[c].Keys == was[c].Keys)
    && (forall c, i :: Holds(was, c, i) && Holds(now, c, i) ==>
          now[c][i] == if (c, i) in done then Half(was[c][i]) else was[c][i])
  }

  lemma HalvingStep(now: Table, was: Table, done: seq<(string, string)>, c: string, i: string)
    requires Halving(now, was, done) && Holds(now, c, i) && (c, i) !in done
    ensures Halving(now[c := now[c][i := Half(now[c][i])]], was, done + [(c, i)])
  {
    var next := now[c := now[c][i := Half(now[c][i])]];
    assert Holds(was, c, i);
    forall d, j | Holds(was, d, j) && Holds(next, d, j)
      ensures next[d][j] == if (d, j) in done + [(c, i)] then Half(was[d][j]) else was[d][j]
    {
      assert Holds(now, d, j);
    }
  }

  lemma HalvingDone(now: Table, was: Table, done: seq<(string, string)>)
    requires Halving(now, was, done) && forall c, i :: Holds(was, c, i) <==> (c, i) in done
    ensures now == Halved(was)
  {
    forall c, i | c in was && i in was[c] ensures now[c][i] == Halved(was)[c][i] {
      assert Holds(was, c, i) && Holds(now, c, i);
    }
    forall c | c in was ensures now[c] == Halved(was)[c] {}
  }

  /** The stale ones of the records in `done` have been removed. */
  ghost predicate Cleaning(now: Table, was: Table, done: seq<(string, string)>, time: int) {
    && now.Keys == was.Keys
    && (forall c, i :: Holds(now, c, i) <==> Holds(was, c, i) && !((c, i) in done && Stale(was[c][i], time)))
    && (forall c, i :: Holds(was, c, i) && Holds(now, c, i) ==> now[c][i] == was[c][i])
  }

  lemma CleaningStep(now: Table, was: Table, done: seq<(string, string)>, time: int, c: string, i: string)
    requires Cleaning(now, was, done, time) && Holds(now, c, i) && (c, i) !in done
    ensures Cleaning(if Stale(now[c][i], time) then now[c := now[c] - {i}] else now, was, done + [(c, i)], time)
  {
    hide Stale;
    var next := if Stale(now[c][i], time) then now[c := now[c] - {i}] else now;
    assert Holds(was, c, i);
    forall d, j
      ensures Holds(next, d, j) <==> Holds(was, d, j) && !((d, j) in done + [(c, i)] && Stale(was[d][j], time))
    {
      assert Holds(now, d, j) <==> Holds(was, d, j) && !((d, j) in done && Stale(was[d][j], time));
    }
    forall d, j | Holds(was, d, j) && Holds(next, d, j) ensures next[d][j] == was[d][j] {
      assert Holds(now, d, j);
    }
  }

  lemma CleaningDone(now: Table, was: Table, done: seq<(string, string)>, time: int)
    requires Cleaning(now, was, done, time) && forall c, i :: Holds(was, c, i) <==> (c, i) in done
    ensures now == Cleaned(was, time)
  {
    hide Stale;
    forall c | c in was ensures now[c] == Cleaned(was, time)[c] {
      forall i ensures i in now[c] <==> i in Cleaned(was, time)[c] {
        assert Holds(now, c, i) <==> Holds(was, c, i) && !((c, i) in done && Stale(was[c][i], time));
      }
      forall i | i in now[c] ensures now[c][i] == was[c][i] {
        assert Holds(now, c, i) && Holds(was, c, i);
      }
    }
  }

  class ShellAppUsage {
    var table: Table
    var previouslyRunning: seq<string>
    var watchStartTime: int
    var saveQueued: bool

    constructor ()
      ensures table == map[] && previouslyRunning == [] && !saveQueued
    {
      table, previouslyRunning, watchStartTime, saveQueued := map[], [], 0, false;
    }

    /** normalize_usage */
    method Normalize()
      modifies this`table
      ensures table == Halved(old(table)) && ScoresHalved(old(table), table)
    {
      hide Exhaustive;
      hide SeenContext;
      hide Halving;
      hide Halved;
      hide Half;
      hide ScoresHalved;
      var iter := new UsageIterator(this);
      ghost var done := [];
      var r := iter.Next();
      assert Halving(table, table, done) by { HalvingStart(table); }
      while r.Some?
        invariant iter.Valid() && iter.usage == this && iter.first == old(table)
        invariant Halving(table, old(table), done)
        invariant if r.Some? then iter.visited == done + [r.value] && r.value !in done else iter.visited == done
        invariant r.Some? ==> Holds(table, r.value.0, r.value.1) && iter.inContext && iter.contextId == r.value.0
        invariant r.None? ==> forall c, i :: Holds(old(table), c, i) <==> (c, i) in done
        decreases iter.left, r.Some?
      {
        var (c, i) := r.value;
        HalvingStep(table, old(table), done, c, i);
        iter.Write(i, Half(table[c][i]));
        done := done + [(c, i)];
        r := iter.Next();
      }
      HalvingDone(table, old(table), done);
      HalvedIs(old(table));
    }

    /** idle_clean_usage */
    method Clean(time: int)
      modifies this`table
      ensures table == Cleaned(old(table), time) && LowAndOldGone(old(table), table, time)
    {
      hide Exhaustive;
      hide SeenContext;
      hide Cleaning;
      hide Cleaned;
      hide LowAndOldGone;
      var iter := new UsageIterator(this);
      ghost var done := [];
      var r := iter.Next();
      assert Cleaning(table, table, done, time) by { CleaningStart(table, time); }
      while r.Some?
        invariant iter.Valid() && iter.usage == this && iter.first == old(table)
        invariant Cleaning(table, old(table), done, time)
        invariant if r.Some? then iter.visited == done + [r.value] && r.value !in done else iter.visited == done
        invariant r.Some? ==> Holds(table, r.value.0, r.value.1) && iter.inContext && iter.contextId == r.value.0
        invariant r.None? ==> forall c, i :: Holds(old(table), c, i) <==> (c, i) in done
        decreases iter.left, r.Some?
      {
        var (c, i) := r.value;
        CleaningStep(table, old(table), done, time, c, i);
        if Stale(table[c][i], time) { iter.Remove(i); }
        done := done + [(c, i)];
        r := iter.Next();
      }
      CleaningDone(table, old(table), done, time);
      CleanedIs(old(table), time);
    }

    /**
     * increment_usage_for_app_at_time: the application's record gets one more
     * point for each full unit of focus; only if that passes the limit, all
     * scores are halved.
     */
    method IncrementUsage(c: string, i: string, time: int)
      modifies this`table, this`saveQueued
      ensures var count := ((time - watchStartTime) % GUINT32) / FOCUS_TIME_MIN_SECONDS;
              var score := ScoreOf(old(table), c, i) + count as real;
              Raised(old(table), table, c, i, UsageData(score, time), count > 0 && score > SCORE_MAX as real)
      ensures var count := ((time - watchStartTime) % GUINT32) / FOCUS_TIME_MIN_SECONDS;
              && table == Incremented(old(table), c, i, count, time)
              && saveQueued == (old(saveQueued) || count > 0)
    {
      hide Halved;
      hide Raised;
      hide ScoresHalved;
      IncrementedIs(table, c, i, ((time - watchStartTime) % GUINT32) / FOCUS_TIME_MIN_SECONDS, time);
      var u := Record(table, c, i);
      table := Insert(table, c, i, u.(lastSeen := time));
      var elapsed := (time - watchStartTime) % GUINT32;
      var count := elapsed / FOCUS_TIME_MIN_SECONDS;
      if count > 0 {
        var score := table[c][i].score + count as real;
        table := table[c := table[c][i := UsageData(score, time)]];
        assert table[c] == (if c in old(table) then old(table)[c] else map[])[i := UsageData(score, time)];
        assert table == Insert(old(table), c, i, UsageData(score, time));
        if score > SCORE_MAX as real { Normalize(); }
        saveQueued := true;
      }
    }

    /** The elements that idle_save_application_usage writes before the record of an application in context c */
    method OpenContext(events: seq<Event>, current: Option<string>, c: string) returns (r: seq<Event>)
      requires Open(events) == Some(if current.None? then [StateTag] else [StateTag, ContextTag])
      requires Read(map[], events).status == Reading && Read(map[], events).context == current
      ensures Open(r) == Some([StateTag, ContextTag])
      ensures Read(map[], r) == Read(map[], events).(context := Some(c))
      ensures ContextIds(r) == ContextIds(events) + if current == Some(c) then [] else [Some(c)]
      ensures Elements(r) == Elements(events)
    {
      hide Read;
      hide Open;
      hide ContextIds;
      hide Elements;
      r := events;
      assert [StateTag] + [ContextTag] == [StateTag, ContextTag] && [StateTag, ContextTag][..1] == [StateTag];
      if current != Some(c) {
        if current.Some? {
          ReadMore(map[], r, End(ContextTag));
          MoreContextIds(r, End(ContextTag));
          MoreElements(map[], r, End(ContextTag));
          r := r + [End(ContextTag)];
        }
        ReadMore(map[], r, Start(ContextTag, NOTHING.(id := Some(c))));
        MoreContextIds(r, Start(ContextTag, NOTHING.(id := Some(c))));
        MoreElements(map[], r, Start(ContextTag, NOTHING.(id := Some(c))));
        r := r + [Start(ContextTag, NOTHING.(id := Some(c)))];
      }
    }

    /** The application element */
    method WriteApplication(events: seq<Event>, a: Attributes) returns (r: seq<Event>)
      requires Open(events) == Some([StateTag, ContextTag]) && a.id.Some?
      requires Read(map[], events).status == Reading && Read(map[], events).context.Some?
      requires StartElement(Read(map[], events), ApplicationTag, a).status == Reading
      ensures Open(r) == Some([StateTag, ContextTag])
      ensures Read(map[], r) == StartElement(Read(map[], events), ApplicationTag, a)
      ensures ContextIds(r) == ContextIds(events)
      ensures Elements(r) == Elements(events) + [(Read(map[], events).context, a)]
    {
      hide Read;
      hide Open;
      hide ContextIds;
      hide Elements;
      ReadMore(map[], events, Start(ApplicationTag, a));
      MoreContextIds(events, Start(ApplicationTag, a));
      MoreElements(map[], events, Start(ApplicationTag, a));
      r := events + [Start(ApplicationTag, a)];
      ReadMore(map[], r, End(ApplicationTag));
      MoreContextIds(r, End(ApplicationTag));
      MoreElements(map[], r, End(ApplicationTag));
      r := r + [End(ApplicationTag)];
    }

    /** One record, which is skipped unless its application is installed */
    method SaveRecord(events: seq<Event>, current: Option<string>, apps: map<string, nat>, c: string, i: string,
                      ghost done: seq<(string, string)>)
      returns (r: seq<Event>, now: Option<string>)
      requires Stream(events, current, done, table, apps) && Holds(table, c, i) && SameOrNew(done, c)
      requires (c, i) !in done
      ensures Stream(r, now, done + [(c, i)], table, apps)
    {
      hide Written;
      hide Read;
      hide Open;
      hide ContextIds;
      hide OpenedSoFar;
      hide Elements;
      hide ElementsSoFar;
      if i !in apps {
        ElementsSkip(Elements(events), done, table, apps, c, i);
        OpenedSkip(ContextIds(events), current, done, c, i);
        WrittenSkip(Read(map[], events), done, table, apps, c, i);
        return events, current;
      }
      OpenedNext(ContextIds(events), current, done, c, i);
      WrittenContext(Read(map[], events), done, table, apps, Some(c));
      r := OpenContext(events, current, c);
      now := Some(c);
      ghost var p := Read(map[], r);
      WrittenMore(p, done, table, apps, c, i);
      WrittenReads(StartElement(p, ApplicationTag, ToWrite(table[c][i], i, apps[i])), done + [(c, i)], table, apps);
      ElementsMore(Elements(r), done, table, apps, c, i);
      r := WriteApplication(r, ToWrite(table[c][i], i, apps[i]));
      assert ContextIds(events) + [] == ContextIds(events);
    }

    /** The closing tags */
    method CloseStream(events: seq<Event>, current: Option<string>) returns (r: seq<Event>)
      requires Open(events) == Some(if current.None? then [StateTag] else [StateTag, ContextTag])
      requires Read(map[], events).status == Reading
      ensures Open(r) == Some([]) && ContextIds(r) == ContextIds(events)
      ensures Elements(r) == Elements(events)
      ensures var p := Read(map[], events); var q := Read(map[], r);
              q.table == p.table && q.running == p.running && q.status == Reading
    {
      hide Read;
      hide Open;
      hide ContextIds;
      hide Elements;
      r := events;
      assert [StateTag, ContextTag][..1] == [StateTag] && [StateTag][..0] == [];
      if current.Some? {
        ReadMore(map[], r, End(ContextTag));
        MoreContextIds(r, End(ContextTag));
        MoreElements(map[], r, End(ContextTag));
        r := r + [End(ContextTag)];
      }
      ReadMore(map[], r, End(StateTag));
      MoreContextIds(r, End(StateTag));
      MoreElements(map[], r, End(StateTag));
      r := r + [End(StateTag)];
    }

    /**
     * idle_save_application_usage. `apps` gives the installed applications
     * and their numbers of open windows. The stream is well nested, opens no
     * context twice, has one application element for each record of an
     * installed application and no others, and reads back as the saved part of
     * the tables.
     */
    method Save(apps: map<string, nat>) returns (events: seq<Event>)
      modifies this`saveQueued
      ensures !saveQueued && Open(events) == Some([]) && Distinct(ContextIds(events))
      ensures Distinct(Elements(events)) && forall x :: x in Elements(events) <==> IsElement(table, apps, x)
      ensures Read(map[], events).status == Reading && Read(map[], events).table == Saved(table, apps)
      ensures forall i :: i in Read(map[], events).running <==>
                i in apps && apps[i] > 0 && exists c :: Holds(table, c, i)
    {
      hide Exhaustive;
      hide SeenContext;
      hide Saved;
      hide Read;
      hide Open;
      hide ContextIds;
      hide Stream;
      hide Elements;
      hide IsElement;
      saveQueued := false;
      events := [Start(StateTag, NOTHING)];
      var current := None;
      var iter := new UsageIterator(this);
      ghost var done := [];
      StreamStart(table, apps);
      var r := iter.Next();
      while r.Some?
        invariant !saveQueued && iter.Valid() && iter.usage == this && iter.first == table == old(table)
        invariant if r.Some? then iter.visited == done + [r.value] && r.value !in done else iter.visited == done
        invariant r.Some? ==> SameOrNew(done, r.value.0)
        invariant r.Some? ==> Holds(table, r.value.0, r.value.1)
        invariant r.None? ==> forall c, i :: Holds(table, c, i) <==> (c, i) in done
        invariant Stream(events, current, done, table, apps)
        decreases iter.left, r.Some?
      {
        var (c, i) := r.value;
        events, current := SaveRecord(events, current, apps, c, i, done);
        done := done + [(c, i)];
        r := iter.Next();
      }
      StreamDone(events, current, done, table, apps);
      events := CloseStream(events, current);
    }

    /** shell_app_usage_start_element_handler */
    method OnStartElement(context: Option<string>, tag: Tag, a: Attributes)
      returns (now: Option<string>, status: Status)
      modifies this`table, this`previouslyRunning
      ensures var p := StartElement(Parse(old(table), context, old(previouslyRunning), Reading), tag, a);
              table == p.table && previouslyRunning == p.running && now == p.context && status == p.status
    {
      now, status := context, Reading;
      match tag
      case StateTag =>
      case ContextTag => now := a.id;
      case ApplicationTag =>
        if a.id.None? { return context, Failed; }
        if context.None? { return context, Crashed; }
        var freed := Holds(table, context.value, a.id.value);
        if freed && a.openWindows > 0 { return context, Lost; }
        table := Insert(table, context.value, a.id.value, UsageData(0.0, 0));
        if a.openWindows > 0 { previouslyRunning := [a.id.value] + previouslyRunning; }
        var records := table[context.value];
        table := table[context.value := records[a.id.value := UsageData(a.score, a.lastSeen % GUINT32)]];
        ghost var t := Insert(old(table), context.value, a.id.value, UsageData(a.score, a.lastSeen % GUINT32));
        assert table[context.value] == t[context.value];
      case OtherTag => status := Failed;
    }

    /**
     * restore_from_file: what was read before an error stays, and is cleaned.
     * After a crash or a read of freed memory there is nothing more to say.
     */
    method RestoreFromFile(events: seq<Event>, time: int) returns (status: Status)
      requires previouslyRunning == []
      modifies this`table, this`previouslyRunning
      ensures var p := Read(old(table), events);
              && status == p.status && previouslyRunning == p.running
              && table == if status == Crashed || status == Lost then p.table else Cleaned(p.table, time)
    {
      var context := None;
      status := Reading;
      var k := 0;
      while k < |events| && status == Reading
        invariant 0 <= k <= |events|
        invariant Read(old(table), events[..k]) == Parse(table, context, previouslyRunning, status)
      {
        assert events[..k + 1][..k] == events[..k];
        match events[k] {
          case Start(tag, a) => context, status := OnStartElement(context, tag, a);
          case End(tag) => if tag == ContextTag { context := None; }
        }
        k := k + 1;
      }
      ReadStops(old(table), events, k);
      if status != Crashed && status != Lost { Clean(time); }
    }
  }

  /** Saving the tables of one session and restoring them in the next. */
  method NextSession(usage: ShellAppUsage, apps: map<string, nat>, time: int) returns (next: ShellAppUsage)
    modifies usage`saveQueued
    ensures next.table == Cleaned(Saved(usage.table, apps), time)
    ensures forall i :: i in next.previouslyRunning <==>
              i in apps && apps[i] > 0 && exists c :: Holds(usage.table, c, i)
  {
    hide Read;
    hide Saved;
    hide Cleaned;
    var events := usage.Save(apps);
    next := new ShellAppUsage();
    var status := next.RestoreFromFile(events, time);
  }

  /** A stream that is being saved. */
  ghost predicate Stream(events: seq<Event>, current: Option<string>, done: seq<(string, string)>, t: Table,
                         apps: map<string, nat>)
  {
    && Open(events) == Some(if current.None? then [StateTag] else [StateTag, ContextTag])
    && Read(map[], events).status == Reading
    && Read(map[], events).context == current
    && Written(Read(map[], events), done, t, apps)
    && ElementsSoFar(Elements(events), done, t, apps)
    && OpenedSoFar(ContextIds(events), current, done)
  }

  /** The contexts opened are among those seen; the last one seen is open if it was opened at all. */
  ghost predicate OpenedSoFar(ids: seq<Option<string>>, current: Option<string>, done: seq<(string, string)>) {
    && Distinct(ids)
    && (forall k :: 0 <= k < |ids| ==> ids[k].Some? && SeenContext(done, ids[k].value))
    && (done != [] && Some(done[|done| - 1].0) in ids ==> current == Some(done[|done| - 1].0))
  }

  lemma SeenMore(done: seq<(string, string)>, c: string, i: string, d: string)
    ensures SeenContext(done + [(c, i)], d) <==> SeenContext(done, d) || d == c
  {
    var more := done + [(c, i)];
    if SeenContext(done, d) {
      var k :| 0 <= k < |done| && done[k].0 == d;
      assert more[k].0 == d;
    }
    assert more[|done|].0 == c;
  }

  lemma NoneSeen(c: string)
    ensures !SeenContext([], c)
  {
  }

  lemma OpenedNext(ids: seq<Option<string>>, current: Option<string>, done: seq<(string, string)>, c: string, i: string)
    requires OpenedSoFar(ids, current, done) && SameOrNew(done, c)
    ensures OpenedSoFar(ids + if current == Some(c) then [] else [Some(c)], Some(c), done + [(c, i)])
  {
    hide SeenContext;
    var next := ids + if current == Some(c) then [] else [Some(c)];
    if Some(c) in ids {
      NoneSeen(c);
      assert SeenContext(done, c);
    }
    forall k | 0 <= k < |next| ensures next[k].Some? && SeenContext(done + [(c, i)], next[k].value) {
      if k < |ids| { SeenMore(done, c, i, ids[k].value); } else { SeenMore(done, c, i, c); }
    }
  }

  lemma OpenedSkip(ids: seq<Option<string>>, current: Option<string>, done: seq<(string, string)>, c: string, i: string)
    requires OpenedSoFar(ids, current, done) && SameOrNew(done, c)
    ensures OpenedSoFar(ids, current, done + [(c, i)])
  {
    hide SeenContext;
    forall k | 0 <= k < |ids| ensures SeenContext(done + [(c, i)], ids[k].value) { SeenMore(done, c, i, ids[k].value); }
    if Some(c) in ids {
      NoneSeen(c);
      assert SeenContext(done, c);
    }
    assert (done + [(c, i)])[|done|].0 == c;
  }

  lemma StreamStart(t: Table, apps: map<string, nat>)
    ensures Stream([Start(StateTag, NOTHING)], None, [], t, apps)
  {
    var e := Start(StateTag, NOTHING);
    ReadMore(map[], [], e);
    MoreContextIds([], e);
    assert [] + [e] == [e] && [] + [StateTag] == [StateTag];
    assert Open([]) == Some([]) && ContextIds([]) == [] && Read(map[], []) == Parse(map[], None, [], Reading);
    MoreElements(map[], [], e);
    assert Elements([]) == [];
  }

  lemma StreamDone(events: seq<Event>, current: Option<string>, done: seq<(string, string)>, t: Table,
                   apps: map<string, nat>)
    requires Stream(events, current, done, t, apps) && forall c, i :: Holds(t, c, i) <==> (c, i) in done
    ensures Open(events) == Some(if current.None? then [StateTag] else [StateTag, ContextTag])
    ensures Read(map[], events).status == Reading && Read(map[], events).table == Saved(t, apps)
    ensures Distinct(ContextIds(events))
    ensures Distinct(Elements(events)) && forall x :: x in Elements(events) <==> IsElement(t, apps, x)
    ensures forall i :: i in Read(map[], events).running <==> i in apps && apps[i] > 0 && exists c :: Holds(t, c, i)
  {
    hide Elements;
    hide Written;
    hide ElementsSoFar;
    hide IsElement;
    ElementsAll(Elements(events), done, t, apps);
    WrittenAll(Read(map[], events), done, t, apps);
  }

  lemma WrittenReads(p: Parse, visited: seq<(string, string)>, t: Table, apps: map<string, nat>)
    requires Written(p, visited, t, apps)
    ensures p.status == Reading
  {
  }

  lemma WrittenContext(p: Parse, visited: seq<(string, string)>, t: Table, apps: map<string, nat>, c: Option<string>)
    requires Written(p, visited, t, apps)
    ensures Written(p.(context := c), visited, t, apps)
  {
  }

  lemma HalvingStart(t: Table)
    ensures Halving(t, t, [])
  {
  }

  lemma CleaningStart(t: Table, time: int)
    ensures Cleaning(t, t, [], time)
  {
  }
}
