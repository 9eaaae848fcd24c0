/**
 * Application usage: the nested tables, and the element stream they are saved
 * to and restored from (src/shell-app-usage.c). A score is an exact number
 * and survives being written and read.
 */
module AppUsageModel {
  import opened Lists
  import opened Wrappers

  const FOCUS_TIME_MIN_SECONDS: int := 7
  const SCORE_MAX: int := 3600 * 50 / FOCUS_TIME_MIN_SECONDS
  const SCORE_MIN: int := SCORE_MAX / 8
  const WEEK: int := 7 * 24 * 60 * 60
  const GUINT32: int := 0x1_0000_0000

  datatype UsageData = UsageData(score: real, lastSeen: int)

  /** context -> application id -> record */
  type Table = map<string, map<string, UsageData>>

  predicate Holds(t: Table, c: string, i: string) {
    c in t && i in t[c]
  }

  ghost predicate NoEmptyContext(t: Table) {
    forall c :: c in t ==> t[c] != map[]
  }

  /** get_usages_for_context, then g_hash_table_insert */
  function Insert(t: Table, c: string, i: string, u: UsageData): Table {
    t[c := (if c in t then t[c] else map[])[i := u]]
  }

  /** Tables without empty contexts that hold the same records are the same. */
  lemma SameTable(s: Table, t: Table)
    requires NoEmptyContext(s) && NoEmptyContext(t)
    requires forall c, i :: Holds(s, c, i) <==> Holds(t, c, i)
    requires forall c, i :: Holds(s, c, i) && Holds(t, c, i) ==> s[c][i] == t[c][i]
    ensures s == t
  {
    forall c ensures c in s <==> c in t {
      if c in s {
        var i :| i in s[c];
        assert Holds(s, c, i);
      }
      if c in t {
        var i :| i in t[c];
        assert Holds(t, c, i);
      }
    }
    forall c | c in s ensures s[c] == t[c] {
      forall i ensures i in s[c] <==> i in t[c] { assert Holds(s, c, i) <==> Holds(t, c, i); }
      forall i | i in s[c] ensures s[c][i] == t[c][i] { assert Holds(s, c, i) && Holds(t, c, i); }
    }
  }

  // ---- What is kept --------------------------------------------------------------------

  /** A record as it comes back: the time it was last seen goes through 32 unsigned bits. */
  function Narrow(u: UsageData): UsageData {
    u.(lastSeen := u.lastSeen % GUINT32)
  }

  /** The records of installed applications; a context without any disappears. */
  function Saved(t: Table, apps: map<string, nat>): Table {
    map c | c in t && (exists i :: i in t[c] && i in apps) :: map i | i in t[c] && i in apps :: Narrow(t[c][i])
  }

  predicate Stale(u: UsageData, now: int) {
    u.score < SCORE_MIN as real && u.lastSeen < now - WEEK
  }

  /** What the weekly rule leaves; contexts stay, even empty ones. */
  function Cleaned(t: Table, now: int): Table {
    map c | c in t :: map i | i in t[c] && !Stale(t[c][i], now) :: t[c][i]
  }

  function Half(u: UsageData): UsageData {
    u.(score := u.score / 2.0)
  }

  function Halved(t: Table): Table {
    map c | c in t :: map i | i in t[c] :: Half(t[c][i])
  }

  /** The record of an application, made on first use (get_app_usage_for_context_and_id) */
  function Record(t: Table, c: string, i: string): UsageData {
    if Holds(t, c, i) then t[c][i] else UsageData(0.0, 0)
  }

  /** The table after `count` more units of focus, all scores halved once if this one passes the limit. */
  function Incremented(t: Table, c: string, i: string, count: nat, time: int): Table {
    var score := Record(t, c, i).score + count as real;
    var bumped := Insert(t, c, i, UsageData(score, time));
    if count > 0 && score > SCORE_MAX as real then Halved(bumped) else bumped
  }

  // ---- The same in terms of the records -------------------------------------------------

  /** Every score is half of what it was, and nothing else has changed. */
  ghost predicate ScoresHalved(was: Table, now: Table) {
    && now.Keys == was.Keys
    && (forall c, i :: Holds(now, c, i) <==> Holds(was, c, i))
    && (forall c, i :: Holds(was, c, i) && Holds(now, c, i) ==>
          now[c][i].score + now[c][i].score == was[c][i].score && now[c][i].lastSeen == was[c][i].lastSeen)
  }

  lemma HalvedIs(t: Table)
    ensures ScoresHalved(t, Halved(t))
  {
  }

  /** Exactly the records with a low score that have not been seen for a week are gone. */
  ghost predicate LowAndOldGone(was: Table, now: Table, time: int) {
    && now.Keys == was.Keys
    && (forall c, i :: Holds(now, c, i) <==>
          Holds(was, c, i) && (was[c][i].score >= (SCORE_MAX / 8) as real || was[c][i].lastSeen + 7 * 86400 >= time))
    && (forall c, i :: Holds(was, c, i) && Holds(now, c, i) ==> now[c][i] == was[c][i])
  }

  lemma CleanedIs(t: Table, now: int)
    ensures LowAndOldGone(t, Cleaned(t, now), now)
  {
  }

  function ScoreOf(t: Table, c: string, i: string): real {
    if Holds(t, c, i) then t[c][i].score else 0.0
  }

  /**
   * The record of application i in context c has the given score and time, all
   * others are as they were; or every score is half of that.
   */
  ghost predicate Raised(was: Table, now: Table, c: string, i: string, u: UsageData, halved: bool) {
    && (forall d, j :: Holds(now, d, j) <==> Holds(was, d, j) || (d, j) == (c, i))
    && (forall d, j :: Holds(now, d, j) ==> RaisedAt(was, now, c, i, u, halved, d, j))
  }

  ghost predicate RaisedAt(
      was: Table, now: Table, c: string, i: string, u: UsageData, halved: bool, d: string, j: string)
    requires Holds(now, d, j)
  {
    && ((d, j) == (c, i) || Holds(was, d, j))
    && var v := if (d, j) == (c, i) then u else was[d][j];
       && now[d][j].lastSeen == v.lastSeen
       && (if halved then now[d][j].score + now[d][j].score == v.score else now[d][j].score == v.score)
  }

  lemma InsertedIs(t: Table, c: string, i: string, u: UsageData)
    ensures Raised(t, Insert(t, c, i, u), c, i, u, false)
  {
    var now := Insert(t, c, i, u);
    forall d, j | Holds(now, d, j) && (d, j) != (c, i) ensures Holds(t, d, j) && now[d][j] == t[d][j] {}
  }

  lemma RaisedThenHalved(was: Table, between: Table, now: Table, c: string, i: string, u: UsageData)
    requires Raised(was, between, c, i, u, false) && ScoresHalved(between, now)
    ensures Raised(was, now, c, i, u, true)
  {
    hide Holds;
    forall d, j | Holds(now, d, j) ensures RaisedAt(was, now, c, i, u, true, d, j) {
      HoldsMeans(between, d, j);
      HoldsMeans(now, d, j);
      assert Holds(between, d, j) && RaisedAt(was, between, c, i, u, false, d, j);
    }
  }

  lemma HoldsMeans(t: Table, c: string, i: string)
    ensures Holds(t, c, i) <==> c in t && i in t[c]
  {
  }

  lemma IncrementedIs(t: Table, c: string, i: string, count: nat, time: int)
    ensures var score := ScoreOf(t, c, i) + count as real;
            Raised(t, Incremented(t, c, i, count, time), c, i, UsageData(score, time),
                   count > 0 && score > SCORE_MAX as real)
  {
    hide Halved;
    hide Insert;
    hide Raised;
    hide ScoresHalved;
    var u := UsageData(ScoreOf(t, c, i) + count as real, time);
    InsertedIs(t, c, i, u);
    HalvedIs(Insert(t, c, i, u));
    if count > 0 && u.score > SCORE_MAX as real {
      RaisedThenHalved(t, Insert(t, c, i, u), Halved(Insert(t, c, i, u)), c, i, u);
    }
  }

  ghost predicate Bounded(t: Table) {
    forall c, i :: Holds(t, c, i) ==> 0.0 <= t[c][i].score <= SCORE_MAX as real
  }

  /** One halving is enough to stay within the limit if and only if the raised score is at most twice the limit. */
  lemma IncrementBounded(t: Table, c: string, i: string, count: nat, time: int)
    requires Bounded(t)
    ensures Bounded(Incremented(t, c, i, count, time)) <==>
            Record(t, c, i).score + count as real <= 2.0 * SCORE_MAX as real
  {
    var score := Record(t, c, i).score + count as real;
    var bumped := Insert(t, c, i, UsageData(score, time));
    var now := Incremented(t, c, i, count, time);
    assert Holds(now, c, i);
    forall d, j | (d, j) != (c, i) ensures Holds(now, d, j) <==> Holds(t, d, j) {}
    forall d, j | (d, j) != (c, i) && Holds(t, d, j) ensures 0.0 <= now[d][j].score <= SCORE_MAX as real {
      assert bumped[d][j] == t[d][j];
    }
  }

  // ---- The stream -----------------------------------------------------------------------

  datatype Tag = StateTag | ContextTag | ApplicationTag | OtherTag

  /** An attribute that is not there reads as zero, except the id. */
  datatype Attributes = Attributes(id: Option<string>, openWindows: nat, score: real, lastSeen: nat)

  datatype Event = Start(tag: Tag, attributes: Attributes) | End(tag: Tag)

  const NOTHING := Attributes(None, 0, 0.0, 0)

  /** The elements that are open after a stream, or None if an end has no matching start. */
  function Open(events: seq<Event>): Option<seq<Tag>> {
    if events == [] then Some([])
    else
      var before := Open(events[..|events| - 1]);
      var e := events[|events| - 1];
      if before.None? then None
      else match e
        case Start(t, _) => Some(before.value + [t])
        case End(t) =>
          if before.value != [] && before.value[|before.value| - 1] == t
          then Some(before.value[..|before.value| - 1]) else None
  }

  /** The ids of the context elements that a stream starts, in order. */
  function ContextIds(events: seq<Event>): seq<Option<string>> {
    if events == [] then []
    else
      var e := events[|events| - 1];
      ContextIds(events[..|events| - 1]) + if e.Start? && e.tag == ContextTag then [e.attributes.id] else []
  }

  /**
   * Crashed: an application element where there is no context. Lost: memory
   * that has been freed is read, and nothing is said of what follows.
   */
  datatype Status = Reading | Failed | Crashed | Lost

  datatype Parse = Parse(table: Table, context: Option<string>, running: seq<string>, status: Status)

  /**
   * shell_app_usage_start_element_handler. The check for a missing context id
   * compares a pointer with < 0 and never fires. Inserting a record under an
   * id that its context holds already frees the new copy of the id, which is
   * copied afterwards if the application had open windows.
   */
  function StartElement(p: Parse, tag: Tag, a: Attributes): Parse {
    match tag
    case StateTag => p
    case ContextTag => p.(context := a.id)
    case ApplicationTag =>
      if a.id.None? then p.(status := Failed)
      else if p.context.None? then p.(status := Crashed)
      else if Holds(p.table, p.context.value, a.id.value) && a.openWindows > 0 then p.(status := Lost)
      else
        p.(table := Insert(p.table, p.context.value, a.id.value, UsageData(a.score, a.lastSeen % GUINT32)),
           running := if a.openWindows > 0 then [a.id.value] + p.running else p.running)
    case OtherTag => p.(status := Failed)
  }

  /** One event; after an error nothing is read any more. */
  function Step(p: Parse, e: Event): Parse {
    if p.status != Reading then p
    else match e
      case Start(tag, a) => StartElement(p, tag, a)
      case End(tag) => if tag == ContextTag then p.(context := None) else p
  }

  function Read(table: Table, events: seq<Event>): Parse {
    if events == [] then Parse(table, None, [], Reading)
    else Step(Read(table, events[..|events| - 1]), events[|events| - 1])
  }

  lemma ReadMore(table: Table, events: seq<Event>, e: Event)
    ensures Read(table, events + [e]) == Step(Read(table, events), e)
    ensures Open(events).Some? && e.Start? ==> Open(events + [e]) == Some(Open(events).value + [e.tag])
    ensures Open(events).Some? && e.End? ==>
              var open := Open(events).value;
              open != [] && open[|open| - 1] == e.tag ==> Open(events + [e]) == Some(open[..|open| - 1])
  {
    assert (events + [e])[..|events + [e]| - 1] == events;
  }

  lemma MoreContextIds(events: seq<Event>, e: Event)
    ensures ContextIds(events + [e])
            == ContextIds(events) + if e.Start? && e.tag == ContextTag then [e.attributes.id] else []
  {
    assert (events + [e])[..|events + [e]| - 1] == events;
  }

  /** Nothing is read after the status has changed. */
  lemma {:induction false} ReadStops(table: Table, events: seq<Event>, k: nat)
    requires k <= |events| && (k == |events| || Read(table, events[..k]).status != Reading)
    ensures Read(table, events) == Read(table, events[..k])
  {
    if k == |events| {
      assert events[..k] == events;
    } else {
      var n := |events| - 1;
      assert events[..n][..k] == events[..k];
      ReadStops(table, events[..n], k);
    }
  }

  // ---- Where the reader stops ------------------------------------------------------------

  /** The id that the last context tag before event k gave; after an end tag, and at the beginning, there is none. */
  function ContextAt(events: seq<Event>, k: nat): Option<string>
    requires k <= |events|
  {
    if k == 0 then None
    else match events[k - 1]
      case Start(tag, a) => if tag == ContextTag then a.id else ContextAt(events, k - 1)
      case End(tag) => if tag == ContextTag then None else ContextAt(events, k - 1)
  }

  predicate Application(e: Event) {
    e.Start? && e.tag == ApplicationTag && e.attributes.id.Some?
  }

  /** What is reported as an error: an unknown element, or an application without an id. */
  predicate Bad(e: Event) {
    e.Start? && (e.tag == OtherTag || (e.tag == ApplicationTag && e.attributes.id.None?))
  }

  /** An application with an id where there is no context, or a context without an id. */
  predicate Homeless(events: seq<Event>, k: nat)
    requires k < |events|
  {
    Application(events[k]) && ContextAt(events, k).None?
  }

  /** Event k is the application i of context c. */
  predicate Names(events: seq<Event>, k: nat, c: string, i: string)
    requires k < |events|
  {
    Application(events[k]) && events[k].attributes.id == Some(i) && ContextAt(events, k) == Some(c)
  }

  /** A table has the record beforehand, or an event has brought it. */
  predicate Known(table: Table, events: seq<Event>, c: string, i: string) {
    Holds(table, c, i) || exists j :: 0 <= j < |events| && Names(events, j, c, i)
  }

  /** An application with open windows whose record is there already */
  predicate Repeated(table: Table, events: seq<Event>, k: nat)
    requires k < |events|
  {
    && Application(events[k]) && events[k].attributes.openWindows > 0 && ContextAt(events, k).Some?
    && Known(table, events[..k], ContextAt(events, k).value, events[k].attributes.id.value)
  }

  predicate Trouble(table: Table, events: seq<Event>, k: nat)
    requires k < |events|
  {
    Bad(events[k]) || Homeless(events, k) || Repeated(table, events, k)
  }

  predicate FirstTrouble(table: Table, events: seq<Event>, k: nat)
    requires k < |events|
  {
    Trouble(table, events, k) && forall j :: 0 <= j < k ==> !Trouble(table, events, j)
  }

  lemma {:induction false} ContextAtFront(events: seq<Event>, n: nat, k: nat)
    requires k <= n <= |events|
    ensures ContextAt(events[..n], k) == ContextAt(events, k)
  {
    if k > 0 { ContextAtFront(events, n, k - 1); }
  }

  /** The application elements of a stream, each with the context it stands in */
  function Elements(events: seq<Event>): seq<(Option<string>, Attributes)> {
    if events == [] then []
    else
      var n := |events| - 1;
      Elements(events[..n]) + if Application(events[n]) then [(ContextAt(events, n), events[n].attributes)] else []
  }

  lemma MoreElements(table: Table, events: seq<Event>, e: Event)
    requires Read(table, events).status == Reading
    ensures Elements(events + [e])
            == Elements(events) + if Application(e) then [(Read(table, events).context, e.attributes)] else []
  {
    var more := events + [e];
    assert more[..|more| - 1] == events;
    StillReading(table, events);
    ContextAtFront(more, |events|, |events|);
  }

  /** The ids of those that had windows open, the last one first */
  function HadWindows(es: seq<(Option<string>, Attributes)>): seq<string> {
    if es == [] then []
    else
      var a := es[|es| - 1].1;
      (if a.openWindows > 0 && a.id.Some? then [a.id.value] else []) + HadWindows(es[..|es| - 1])
  }

  lemma HadWindowsSnoc(es: seq<(Option<string>, Attributes)>, c: Option<string>, a: Attributes)
    ensures HadWindows(es + [(c, a)]) ==
            if a.openWindows > 0 && a.id.Some? then [a.id.value] + HadWindows(es) else HadWindows(es)
  {
    assert (es + [(c, a)])[..|es|] == es && [] + HadWindows(es) == HadWindows(es);
  }

  lemma StepRunning(p: Parse, e: Event)
    requires p.status == Reading && Step(p, e).status == Reading
    ensures Step(p, e).running ==
            if Application(e) && e.attributes.openWindows > 0 then [e.attributes.id.value] + p.running else p.running
  {
  }

  /** Without an error, the applications that were running are those, in this order. */
  lemma {:induction false} RunningIs(table: Table, events: seq<Event>)
    requires Read(table, events).status == Reading
    ensures Read(table, events).running == HadWindows(Elements(events))
  {
    hide Step;
    hide HadWindows;
    hide Elements;
    if events == [] {
      NothingRuns(table);
    } else {
      var n := |events| - 1;
      var e := events[n];
      assert events == events[..n] + [e];
      StatusBefore(Read(table, events[..n]), e);
      RunningIs(table, events[..n]);
      StepRunning(Read(table, events[..n]), e);
      MoreElements(table, events[..n], e);
      var a := if e.Start? then e.attributes else NOTHING;
      HadWindowsSnoc(Elements(events[..n]), Read(table, events[..n]).context, a);
      assert Elements(events[..n]) + [] == Elements(events[..n]);
    }
  }

  lemma StatusBefore(p: Parse, e: Event)
    ensures Step(p, e).status == Reading ==> p.status == Reading
  {
  }

  lemma NothingRuns(table: Table)
    ensures Read(table, []).running == HadWindows(Elements([]))
  {
  }

  lemma TroubleFront(table: Table, events: seq<Event>, n: nat, k: nat)
    requires k < n <= |events|
    ensures Trouble(table, events[..n], k) <==> Trouble(table, events, k)
    ensures forall c, i :: Names(events[..n], k, c, i) <==> Names(events, k, c, i)
  {
    hide ContextAt;
    ContextAtFront(events, n, k);
    assert events[..n][..k] == events[..k];
  }

  /** One more event makes one more record known, if it is an application in a context. */
  lemma KnownMore(table: Table, events: seq<Event>, n: nat, c: string, i: string)
    requires n < |events|
    ensures Known(table, events[..n + 1], c, i) <==> Known(table, events[..n], c, i) || Names(events, n, c, i)
  {
    hide Names;
    var front, more := events[..n], events[..n + 1];
    TroubleFront(table, events, n + 1, n);
    if j :| 0 <= j < n && Names(front, j, c, i) {
      TroubleFront(table, events, n, j);
      TroubleFront(table, events, n + 1, j);
      assert Names(more, j, c, i);
    }
    if j :| 0 <= j < n && Names(more, j, c, i) {
      TroubleFront(table, events, n, j);
      TroubleFront(table, events, n + 1, j);
      assert Names(front, j, c, i);
    }
    assert Names(more, n, c, i) <==> Names(events, n, c, i);
  }

  /** The reader goes on as long as there is no trouble, and its tables then hold just what is known. */
  lemma {:induction false} StillReading(table: Table, events: seq<Event>)
    ensures Read(table, events).status == Reading <==>
            forall k :: 0 <= k < |events| ==> !Trouble(table, events, k)
    ensures Read(table, events).status == Reading ==>
              && Read(table, events).context == ContextAt(events, |events|)
              && forall c, i :: Holds(Read(table, events).table, c, i) <==> Known(table, events, c, i)
  {
    if events != [] {
      var n := |events| - 1;
      var front := events[..n];
      StillReading(table, front);
      forall k | 0 <= k < n ensures Trouble(table, front, k) <==> Trouble(table, events, k) {
        TroubleFront(table, events, n, k);
      }
      if Read(table, front).status == Reading { ReadsOn(table, events); }
    }
  }

  lemma ReadsOn(table: Table, events: seq<Event>)
    requires events != []
    requires var front := events[..|events| - 1];
             && Read(table, front).status == Reading
             && Read(table, front).context == ContextAt(front, |front|)
             && forall c, i :: Holds(Read(table, front).table, c, i) <==> Known(table, front, c, i)
    ensures Read(table, events).status == Reading <==> !Trouble(table, events, |events| - 1)
    ensures Read(table, events).status == Reading ==>
              && Read(table, events).context == ContextAt(events, |events|)
              && forall c, i :: Holds(Read(table, events).table, c, i) <==> Known(table, events, c, i)
  {
    hide Known;
    var n := |events| - 1;
    ContextAtFront(events, n, n);
    assert events[..n + 1] == events;
    forall c, i ensures Known(table, events, c, i) <==> Known(table, events[..n], c, i) || Names(events, n, c, i) {
      KnownMore(table, events, n, c, i);
    }
  }

  /** The first trouble decides how the reader ends. */
  lemma FirstTroubleDecides(table: Table, events: seq<Event>, k: nat)
    requires k < |events| && FirstTrouble(table, events, k)
    ensures Read(table, events).status ==
            if Bad(events[k]) then Failed else if Homeless(events, k) then Crashed else Lost
  {
    hide Known;
    hide Read;
    var front := events[..k];
    forall j | 0 <= j < k ensures !Trouble(table, front, j) { TroubleFront(table, events, k, j); }
    StillReading(table, front);
    ContextAtFront(events, k, k);
    ReadMore(table, front, events[k]);
    assert front + [events[k]] == events[..k + 1];
    ReadStops(table, events, k + 1);
  }

  /**
   * For every table and every stream: the reader reports an error, crashes or
   * is lost if and only if the first event that gives trouble is bad, is an
   * application where there is no context or a context without an id, or is
   * an application with open windows whose record is there already.
   */
  lemma ReaderCrashes(table: Table, events: seq<Event>)
    ensures Read(table, events).status == Failed <==>
            exists k :: 0 <= k < |events| && FirstTrouble(table, events, k) && Bad(events[k])
    ensures Read(table, events).status == Crashed <==>
            exists k :: 0 <= k < |events| && FirstTrouble(table, events, k) && Homeless(events, k)
    ensures Read(table, events).status == Lost <==>
            exists k :: 0 <= k < |events| && FirstTrouble(table, events, k) && Repeated(table, events, k)
  {
    hide Read;
    hide Known;
    hide ContextAt;
    StillReading(table, events);
    forall k | 0 <= k < |events| && FirstTrouble(table, events, k)
      ensures Read(table, events).status ==
              if Bad(events[k]) then Failed else if Homeless(events, k) then Crashed else Lost
    {
      FirstTroubleDecides(table, events, k);
    }
    if k :| 0 <= k < |events| && Trouble(table, events, k) {
      var first := LeastTrouble(table, events, k);
    }
  }

  lemma {:induction false} LeastTrouble(table: Table, events: seq<Event>, k: nat) returns (first: nat)
    requires k < |events| && Trouble(table, events, k)
    ensures first <= k && FirstTrouble(table, events, first)
  {
    if j :| 0 <= j < k && Trouble(table, events, j) {
      first := LeastTrouble(table, events, j);
    } else {
      first := k;
    }
  }

  /** So a context without an id is not reported as an error, and an application inside it brings the reader down. */
  lemma MissingContextId(table: Table, a: Attributes, b: Attributes)
    requires a.id.None? && b.id.Some?
    ensures Read(table, [Start(ContextTag, a)]).status == Reading
    ensures Read(table, [Start(ContextTag, a), Start(ApplicationTag, b)]).status == Crashed
  {
    assert [Start(ContextTag, a), Start(ApplicationTag, b)][..1] == [Start(ContextTag, a)];
  }

  /** An application given twice in its context, the second time with open windows, has its freed id copied. */
  lemma RepeatedApplication(c: Attributes, a: Attributes, b: Attributes)
    requires c.id.Some? && a.id.Some? && b.id == a.id && b.openWindows > 0
    ensures var once := [Start(ContextTag, c), Start(ApplicationTag, a), End(ApplicationTag)];
            && Read(map[], once).status == Reading
            && Read(map[], once + [Start(ApplicationTag, b)]).status == Lost
  {
    hide Open;
    var context, one, end := Start(ContextTag, c), Start(ApplicationTag, a), End(ApplicationTag);
    var p := Parse(map[], c.id, [], Reading);
    assert Read(map[], [context]) == p by { ReadMore(map[], [], context); }
    assert Read(map[], [context, one]) == StartElement(p, ApplicationTag, a) by {
      ReadMore(map[], [context], one);
      assert [context] + [one] == [context, one];
    }
    var once := [context, one, end];
    assert Read(map[], once) == StartElement(p, ApplicationTag, a) by {
      ReadMore(map[], [context, one], end);
      assert [context, one] + [end] == once;
    }
    ReadMore(map[], once, Start(ApplicationTag, b));
  }

  lemma SavedHolds(t: Table, apps: map<string, nat>, c: string, i: string)
    ensures Holds(Saved(t, apps), c, i) <==> Holds(t, c, i) && i in apps
    ensures Holds(t, c, i) && i in apps ==> Saved(t, apps)[c][i] == Narrow(t[c][i])
  {
    if Holds(t, c, i) && i in apps {
      assert c in Saved(t, apps) && i in Saved(t, apps)[c];
    }
  }

  lemma SavedNoEmptyContext(t: Table, apps: map<string, nat>)
    ensures NoEmptyContext(Saved(t, apps))
  {
    var s := Saved(t, apps);
    forall c | c in s ensures s[c] != map[] {
      var i :| i in t[c] && i in apps;
      assert i in s[c];
    }
  }

  /** What is read back of a stream into which the records in `visited` have been saved. */
  ghost predicate Written(p: Parse, visited: seq<(string, string)>, t: Table, apps: map<string, nat>) {
    && p.status == Reading
    && NoEmptyContext(p.table)
    && (forall c, i :: Holds(p.table, c, i) <==> (c, i) in visited && i in apps)
    && (forall c, i :: Holds(p.table, c, i) && Holds(t, c, i) ==> p.table[c][i] == Narrow(t[c][i]))
    && (forall i :: i in p.running ==> i in apps && apps[i] > 0 && exists c :: (c, i) in visited)
    && (forall c, i :: (c, i) in visited && i in apps && apps[i] > 0 ==> i in p.running)
  }

  /** The attributes of an application element */
  function ToWrite(u: UsageData, i: string, openWindows: nat): Attributes {
    Attributes(Some(i), openWindows, u.score, u.lastSeen % GUINT32)
  }

  /** The element that stands for a record of an installed application: its context, id, windows, score and time */
  predicate IsElement(t: Table, apps: map<string, nat>, x: (Option<string>, Attributes)) {
    && x.0.Some? && x.1.id.Some?
    && var c, i := x.0.value, x.1.id.value;
       && Holds(t, c, i) && i in apps
       && x.1.openWindows == apps[i] && x.1.score == t[c][i].score && x.1.lastSeen == t[c][i].lastSeen % GUINT32
  }

  function RecordOf(x: (Option<string>, Attributes)): (string, string)
    requires x.0.Some? && x.1.id.Some?
  {
    (x.0.value, x.1.id.value)
  }

  /** The elements written so far: one for each record in `visited` of an installed application. */
  ghost predicate ElementsSoFar(
      es: seq<(Option<string>, Attributes)>, visited: seq<(string, string)>, t: Table, apps: map<string, nat>)
  {
    && Distinct(es)
    && (forall x :: x in es ==> IsElement(t, apps, x) && RecordOf(x) in visited)
    && (forall c, i :: (c, i) in visited && i in apps ==>
          Holds(t, c, i) && (Some(c), ToWrite(t[c][i], i, apps[i])) in es)
  }

  lemma ElementsSkip(
      es: seq<(Option<string>, Attributes)>, visited: seq<(string, string)>, t: Table, apps: map<string, nat>,
      c: string, i: string)
    requires ElementsSoFar(es, visited, t, apps) && i !in apps
    ensures ElementsSoFar(es, visited + [(c, i)], t, apps)
  {
    var more := visited + [(c, i)];
    forall d, j | j in apps ensures (d, j) in more <==> (d, j) in visited {}
  }

  lemma ElementsMore(
      es: seq<(Option<string>, Attributes)>, visited: seq<(string, string)>, t: Table, apps: map<string, nat>,
      c: string, i: string)
    requires ElementsSoFar(es, visited, t, apps) && i in apps && Holds(t, c, i) && (c, i) !in visited
    ensures ElementsSoFar(es + [(Some(c), ToWrite(t[c][i], i, apps[i]))], visited + [(c, i)], t, apps)
  {
    var x := (Some(c), ToWrite(t[c][i], i, apps[i]));
    var more := visited + [(c, i)];
    assert RecordOf(x) == (c, i) && IsElement(t, apps, x);
    assert x !in es;
    forall y | y in es + [x] ensures IsElement(t, apps, y) && RecordOf(y) in more {}
    forall d, j | (d, j) in more && j in apps
      ensures Holds(t, d, j) && (Some(d), ToWrite(t[d][j], j, apps[j])) in es + [x]
    {
      if (d, j) != (c, i) { assert (d, j) in visited; }
    }
  }

  lemma ElementsAll(
      es: seq<(Option<string>, Attributes)>, visited: seq<(string, string)>, t: Table, apps: map<string, nat>)
    requires ElementsSoFar(es, visited, t, apps) && forall c, i :: Holds(t, c, i) <==> (c, i) in visited
    ensures Distinct(es) && forall x :: x in es <==> IsElement(t, apps, x)
  {
    forall x | IsElement(t, apps, x) ensures x in es {
      var c, i := x.0.value, x.1.id.value;
      assert Holds(t, c, i);
      assert x == (Some(c), ToWrite(t[c][i], i, apps[i]));
    }
  }

  lemma WrittenSkip(p: Parse, visited: seq<(string, string)>, t: Table, apps: map<string, nat>, c: string, i: string)
    requires Written(p, visited, t, apps) && i !in apps
    ensures Written(p, visited + [(c, i)], t, apps)
  {
    var more := visited + [(c, i)];
    forall d, j | j in apps ensures (d, j) in more <==> (d, j) in visited {}
    forall j | j in p.running ensures exists d :: (d, j) in more {
      var d :| (d, j) in visited;
      assert (d, j) in more;
    }
  }

  lemma WrittenMore(p: Parse, visited: seq<(string, string)>, t: Table, apps: map<string, nat>, c: string, i: string)
    requires Written(p, visited, t, apps) && i in apps && p.context == Some(c) && Holds(t, c, i)
    requires (c, i) !in visited
    ensures Written(StartElement(p, ApplicationTag, ToWrite(t[c][i], i, apps[i])), visited + [(c, i)], t, apps)
  {
    var more := visited + [(c, i)];
    var q := StartElement(p, ApplicationTag, ToWrite(t[c][i], i, apps[i]));
    assert !Holds(p.table, c, i);
    assert q.table == Insert(p.table, c, i, Narrow(t[c][i]));
    forall d, j ensures Holds(q.table, d, j) <==> (d, j) in more && j in apps {
      assert Holds(q.table, d, j) <==> Holds(p.table, d, j) || (d, j) == (c, i);
      assert (d, j) in more <==> (d, j) in visited || (d, j) == (c, i);
    }
    forall d | d in q.table ensures q.table[d] != map[] {
      if d == c { assert i in q.table[c]; }
    }
    forall d, j | Holds(q.table, d, j) && Holds(t, d, j) ensures q.table[d][j] == Narrow(t[d][j]) {
      if (d, j) != (c, i) { assert Holds(p.table, d, j) && q.table[d][j] == p.table[d][j]; }
    }
    forall j | j in q.running ensures j in apps && apps[j] > 0 && exists d :: (d, j) in more {
      if j in p.running {
        var d :| (d, j) in visited;
        assert (d, j) in more;
      } else {
        assert j == i && (c, i) in more;
      }
    }
    forall d, j | (d, j) in more && j in apps && apps[j] > 0 ensures j in q.running {
      if (d, j) != (c, i) { assert (d, j) in visited; }
    }
  }

  lemma WrittenAll(p: Parse, visited: seq<(string, string)>, t: Table, apps: map<string, nat>)
    requires Written(p, visited, t, apps) && forall c, i :: Holds(t, c, i) <==> (c, i) in visited
    ensures p.table == Saved(t, apps)
    ensures forall i :: i in p.running <==> i in apps && apps[i] > 0 && exists c :: Holds(t, c, i)
  {
    hide Saved;
    SavedNoEmptyContext(t, apps);
    forall c, i ensures Holds(p.table, c, i) <==> Holds(Saved(t, apps), c, i) { SavedHolds(t, apps, c, i); }
    forall c, i | Holds(p.table, c, i) && Holds(Saved(t, apps), c, i) ensures p.table[c][i] == Saved(t, apps)[c][i] {
      SavedHolds(t, apps, c, i);
    }
    SameTable(p.table, Saved(t, apps));
    forall i ensures i in p.running <==> i in apps && apps[i] > 0 && exists c :: Holds(t, c, i) {
      if i in p.running {
        var c :| (c, i) in visited;
        assert Holds(t, c, i);
      }
    }
  }

  lemma CleanedHolds(t: Table, now: int, c: string, i: string)
    ensures Holds(Cleaned(t, now), c, i) <==> Holds(t, c, i) && !Stale(t[c][i], now)
    ensures Holds(t, c, i) && !Stale(t[c][i], now) ==> Cleaned(t, now)[c][i] == t[c][i]
  {
  }

  /**
   * Saving, restoring and cleaning. A record is lost exactly when its
   * application is not installed or the weekly rule drops it. It keeps its
   * score, and the time it was last seen up to multiples of 2^32; so it comes
   * back unchanged if and only if that time fits into 32 bits.
   */
  lemma RestoredRecord(t: Table, apps: map<string, nat>, now: int, c: string, i: string)
    ensures var r := Cleaned(Saved(t, apps), now);
            && (Holds(r, c, i) <==>
                && Holds(t, c, i) && i in apps
                && (t[c][i].score >= (SCORE_MAX / 8) as real || t[c][i].lastSeen % GUINT32 + 7 * 86400 >= now))
            && (Holds(r, c, i) ==>
                  && r[c][i].score == t[c][i].score && r[c][i].lastSeen == t[c][i].lastSeen % GUINT32
                  && (r[c][i] == t[c][i] <==> 0 <= t[c][i].lastSeen < GUINT32))
  {
    hide Saved;
    hide Cleaned;
    SavedHolds(t, apps, c, i);
    CleanedHolds(Saved(t, apps), now, c, i);
  }

  /** A second save and restore changes nothing more. */
  lemma SecondRound(t: Table, apps: map<string, nat>)
    ensures var once := Saved(t, apps); Saved(once, apps) == once
  {
    hide Saved;
    var once := Saved(t, apps);
    SavedNoEmptyContext(t, apps);
    SavedNoEmptyContext(once, apps);
    forall c, i ensures Holds(once, c, i) <==> Holds(Saved(once, apps), c, i) {
      SavedHolds(t, apps, c, i);
      SavedHolds(once, apps, c, i);
    }
    forall c, i | Holds(once, c, i) && Holds(Saved(once, apps), c, i) ensures once[c][i] == Saved(once, apps)[c][i] {
      SavedHolds(t, apps, c, i);
      SavedHolds(once, apps, c, i);
    }
    SameTable(once, Saved(once, apps));
  }
}
