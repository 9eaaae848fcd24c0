/**
 * GActionMuxer. Besides the muxer's two tables, the object holds what its
 * surroundings keep: the groups' own actions, what each observer believes,
 * and the weak references on the observers.
 */
module Muxer {
  import opened Lists
  import opened Wrappers
  import opened MuxerModel
  import opened MuxerRegistry
  import opened MuxerObservers

  lemma RegisterAgrees(s: State, fullname: string, o: nat)
    requires TableOk(s) && Agrees(s)
    ensures Agrees(Register(s, fullname, o))
  {
    hide TableOk;
    var t := Register(s, fullname, o);
    SameQuery(s, t);
    RegisterWatchers(s, fullname, o);
    hide Query;
    hide Register;
    forall p: nat, f: string | f in t.table && p in Watchers(t, f) ensures ViewOf(t.views, p, f) == Query(t, f) {
      RegisterView(s, fullname, o, p, f);
    }
  }

  lemma RegisterView(s: State, fullname: string, o: nat, p: nat, f: string)
    requires TableOk(s)
    ensures ViewOf(Register(s, fullname, o).views, p, f) ==
            if p == o && f == fullname then Query(s, f) else ViewOf(s.views, p, f)
  {
    hide Query;
  }

  lemma SameQuery(s: State, t: State)
    requires t.groups == s.groups && t.contents == s.contents
    ensures forall f :: Query(t, f) == Query(s, f)
  {
  }

  lemma RegisterWatchers(s: State, fullname: string, o: nat)
    requires TableOk(s)
    ensures var t := Register(s, fullname, o);
            && (forall f :: f in t.table && f != fullname ==> f in s.table)
            && forall f, p :: p in Watchers(t, f) ==> p in Watchers(s, f) || (f == fullname && p == o)
  {
    hide Query;
  }

  lemma ForgetAgrees(s: State, a: nat, o: nat)
    requires TableOk(s) && Agrees(s) && a in s.records
    ensures Agrees(Forget(s, a, o))
  {
    hide TableOk;
    var t := Forget(s, a, o);
    ForgetHistory(s, a, o);
    SameQuery(s, t);
    ForgetWatchers(s, a, o);
    hide Query;
    hide Forget;
    forall p: nat, f: string | f in t.table && p in Watchers(t, f) ensures ViewOf(t.views, p, f) == Query(t, f) {
      assert p in Watchers(s, f);
    }
  }

  lemma ForgetWatchers(s: State, a: nat, o: nat)
    requires TableOk(s) && a in s.records
    ensures var t := Forget(s, a, o);
            && (forall f :: f in t.table ==> f in s.table)
            && forall f, p :: p in Watchers(t, f) ==> p in Watchers(s, f)
  {
    forall p ensures p in Without(s.records[a].watchers, o) ==> p in s.records[a].watchers {
      WithoutIn(s.records[a].watchers, o, p);
    }
    hide Without;
  }

  lemma {:induction false} WithoutAt(ws: seq<nat>, o: nat, i: nat)
    requires i < |ws| && ws[i] == o && o !in ws[..i]
    ensures Without(ws, o) == ws[..i] + ws[i + 1..]
  {
    if i > 0 {
      assert ws[0] == ws[..i][0];
      assert ws[1..][..i - 1] == ws[..i][1..];
      WithoutAt(ws[1..], o, i - 1);
      assert ws[1..][i..] == ws[i + 1..];
      assert ws[..i] == [ws[0]] + ws[1..][..i - 1];
    }
  }

  /** The search for the first link and g_slist_remove. */
  method Unlink(ws: seq<nat>, o: nat) returns (rest: seq<nat>)
    requires o in ws
    ensures rest == Without(ws, o)
  {
    hide Without;
    var i := 0;
    while i < |ws| && ws[i] != o
      invariant 0 <= i <= |ws| && forall k :: 0 <= k < i ==> ws[k] != o
    {
      i := i + 1;
    }
    WithoutAt(ws, o, i);
    rest := ws[..i] + ws[i + 1..];
  }

  /** Register, field by field. */
  lemma RegisterFields(s: State, name: string, o: nat)
    requires TableOk(s)
    ensures name in s.table ==>
              var a := s.table[name];
              && a in s.records
              && Register(s, name, o).(views := s.views) ==
                 s.(records := s.records[a := Action(name, [o] + s.records[a].watchers)],
                    weakRefs := s.weakRefs + multiset{(o, a)},
                    registrations := s.registrations + multiset{(o, name)})
    ensures name !in s.table ==>
              var a := s.nextId;
              Register(s, name, o).(views := s.views) ==
              s.(table := s.table[name := a],
                 records := s.records[a := Action(name, [o])],
                 weakRefs := s.weakRefs + multiset{(o, a)},
                 extraRefs := s.extraRefs + 1, nextId := s.nextId + 1,
                 registrations := s.registrations + multiset{(o, name)})
    ensures Register(s, name, o).views == s.views[(o, name) := Query(s, name)]
  {
    hide Query;
    assert [o] + [] == [o];
    if name in s.table { assert s.table[name := s.table[name]] == s.table; }
  }

  class GActionMuxer {
    var groups: map<string, nat>
    var table: map<string, nat>
    var records: map<nat, Action>
    var contents: map<nat, map<string, Info>>
    var views: map<(nat, string), Option<Info>>
    var weakRefs: multiset<(nat, nat)>
    var extraRefs: nat
    var nextId: nat
    ghost var registrations: multiset<(nat, string)>

    ghost function View(): State
      reads this
    {
      State(groups, contents, table, records, views, weakRefs, extraRefs, nextId, registrations)
    }

    ghost predicate Valid()
      reads this
    {
      Registered(View()) && Agrees(View())
    }

    constructor ()
      ensures Valid() && View() == INITIAL
    {
      groups, table, records, contents, views := map[], map[], map[], map[], map[];
      weakRefs, extraRefs, nextId, registrations := multiset{}, 0, 0, multiset{};
    }

    /** g_action_muxer_find_group and g_action_muxer_query_action */
    method QueryAction(name: string) returns (r: Option<Info>)
      ensures r == Query(View(), name)
    {
      var i := 0;
      assert name[0..] == name;
      while i < |name| && name[i] != '.'
        invariant 0 <= i <= |name| && '.' !in name[..i]
      {
        assert name[..i + 1] == name[..i] + [name[i]];
        i := i + 1;
      }
      FullNameSplit(name);
      if i == |name| {
        assert name[..i] == name;
        return None;
      }
      var prefix, rest := name[..i], name[i + 1..];
      assert name == FullName(prefix, rest);
      SplitFullName(prefix, rest);
      if prefix !in groups { return None; }
      var group := groups[prefix];
      if group in contents && rest in contents[group] { return Some(contents[group][rest]); }
      return None;
    }

    /** g_action_muxer_register_observer, with the observer's initial query. */
    method RegisterObserver(name: string, observer: nat)
      requires Valid()
      modifies this
      ensures Valid() && TableOk(old(View())) && View() == Register(old(View()), name, observer)
    {
      hide Query;
      hide Registered;
      hide Agrees;
      hide TableOk;
      hide Register;
      RegisteredTable(View());
      RegisterKeeps(View(), name, observer);
      RegisterAgrees(View(), name, observer);
      RegisterFields(View(), name, observer);
      var known := QueryAction(name);
      AddWatcher(name, observer);
      views := views[(observer, name) := known];
    }

    method AddWatcher(name: string, observer: nat)
      requires TableOk(View())
      modifies this
      ensures View() == Register(old(View()), name, observer).(views := old(views))
    {
      hide Query;
      hide TableOk;
      hide Register;
      ghost var s := View();
      RegisterFields(s, name, observer);
      registrations := registrations + multiset{(observer, name)};
      if name in table {
        var a := table[name];
        records := records[a := Action(name, [observer] + records[a].watchers)];
        weakRefs := weakRefs + multiset{(observer, a)};
      } else {
        NewWatcher(name, observer);
      }
    }

    /** The case of a name that nobody watches yet */
    method NewWatcher(name: string, observer: nat)
      requires name !in table
      modifies this
      ensures View() == old(View()).(table := old(table)[name := old(nextId)],
                                     records := old(records)[old(nextId) := Action(name, [observer])],
                                     weakRefs := old(weakRefs) + multiset{(observer, old(nextId))},
                                     extraRefs := old(extraRefs) + 1, nextId := old(nextId) + 1)
    {
      var a := nextId;
      nextId := nextId + 1;
      extraRefs := extraRefs + 1;
      table := table[name := a];
      records := records[a := Action(name, [observer])];
      weakRefs := weakRefs + multiset{(observer, a)};
    }

    lemma RegisteredTable(s: State)
      requires Registered(s)
      ensures TableOk(s)
    {
    }

    /** g_action_muxer_unregister_internal, after the weak reference has gone. */
    method UnregisterOne(a: nat, observer: nat)
      requires a in records
      modifies this
      ensures View() == UnregisterInternal(old(View()), a, observer)
    {
      hide Without;
      var action := records[a];
      if observer !in action.watchers { return; }
      var rest := Unlink(action.watchers, observer);
      if rest != [] {
        records := records[a := action.(watchers := rest)];
      } else {
        table := table - {action.fullname};
        records := records - {a};
        extraRefs := if extraRefs > 0 then extraRefs - 1 else 0;
      }
    }

    /** g_action_muxer_weak_notify, or the body of g_action_muxer_unregister_observer. */
    method ForgetOne(a: nat, observer: nat)
      requires Valid() && (observer, a) in weakRefs
      modifies this
      ensures Valid() && a in old(records) && View() == Forget(old(View()), a, observer)
    {
      hide Registered;
      hide Agrees;
      hide TableOk;
      hide Without;
      hide UnregisterInternal;
      ghost var s := View();
      RegisteredTable(s);
      NoDanglingWeakRef(s, a, observer);
      ForgetKeeps(s, a, observer);
      ForgetAgrees(s, a, observer);
      ForgetHistory(s, a, observer);
      weakRefs := weakRefs - multiset{(observer, a)};
      registrations := registrations - multiset{(observer, records[a].fullname)};
      UnregisterOne(a, observer);
    }

    /** g_action_muxer_unregister_observer; the caller has registered the observer and not unregistered it as often. */
    method UnregisterObserver(name: string, observer: nat)
      requires Valid() && (observer, name) in registrations
      modifies this
      ensures Valid() && TableOk(old(View())) && name in old(table) && View() == Unregister(old(View()), name, observer)
    {
      hide Registered;
      hide Agrees;
      hide TableOk;
      hide Forget;
      ghost var s := View();
      RegisteredTable(s);
      RegistrationIsWatched(s, name, observer);
      WatchedHasWeakRef(s, name, observer);
      ForgetOne(table[name], observer);
    }

    lemma WatchedHasWeakRef(s: State, name: string, observer: nat)
      requires Registered(s) && name in s.table && observer in Watchers(s, name)
      ensures (observer, s.table[name]) in s.weakRefs
    {
      CountPositive(Watchers(s, name), observer);
      assert s.weakRefs[(observer, s.table[name])] == RecordTimes(s, s.table[name], observer);
    }

    /** The observer is finalized: each of its weak references calls g_action_muxer_weak_notify. */
    method DestroyObserver(observer: nat)
      requires Valid()
      modifies this
      ensures Valid() && groups == old(groups) && contents == old(contents)
      ensures forall f, o :: registrations[(o, f)] == if o == observer then 0 else old(registrations)[(o, f)]
    {
      hide Registered;
      hide Agrees;
      hide TableOk;
      hide Forget;
      ghost var s := View();
      while exists p :: p in weakRefs && p.0 == observer
        invariant Valid() && groups == s.groups && contents == s.contents
        invariant forall f, o :: o != observer ==> registrations[(o, f)] == s.registrations[(o, f)]
        decreases |weakRefs|
      {
        var p :| p in weakRefs && p.0 == observer;
        ghost var t := View();
        ForgetOne(p.1, observer);
        ForgetHistory(t, p.1, observer);
      }
      NothingLeft(View(), observer);
    }

    lemma NothingLeft(s: State, observer: nat)
      requires Registered(s) && !exists p :: p in s.weakRefs && p.0 == observer
      ensures forall f :: s.registrations[(observer, f)] == 0
    {
      hide Registered;
      forall f ensures (observer, f) !in s.registrations {
        RegistrationIsWatched(s, f, observer);
        if f in s.table && observer in Watchers(s, f) { WatchedHasWeakRef(s, f, observer); }
      }
    }

    /** One of the four handlers: the watchers of prefix.name are told. */
    method TellWatchers(fullname: string, c: Change, ghost s: State)
      requires TableOk(s) && table == s.table && records == s.records
      modifies this`views
      ensures views == Tell(old(views), Watchers(s, fullname), fullname, c)
    {
      if fullname !in table { return; }
      var ws := records[table[fullname]].watchers;
      var i := 0;
      assert ws[0..] == ws;
      while i < |ws|
        invariant 0 <= i <= |ws|
        invariant Tell(old(views), ws, fullname, c) == Tell(views, ws[i..], fullname, c)
      {
        views := views[(ws[i], fullname) := Told(ViewOf(views, ws[i], fullname), c)];
        assert ws[i..][1..] == ws[i + 1..];
        i := i + 1;
      }
    }

    /**
     * g_action_muxer_remove. Observers agree with queries afterwards, except
     * that under a prefix with a dot the watched names must have led nowhere
     * already.
     */
    method Remove(prefix: string)
      requires Valid()
      modifies this
      ensures Registered(View()) && View() == old(View()).(groups := old(groups) - {prefix}, views := views)
      ensures Valid() <==> RemoveOk(old(View()), prefix)
      ensures Effect(old(View()), old(views), views, RemovedUnder(old(View()), prefix))
    {
      hide Query;
      hide Effect;
      hide RemovedUnder;
      hide RemoveOk;
      hide Registered;
      hide Agrees;
      hide TableOk;
      ghost var s := View();
      RegisteredTable(s);
      if prefix in groups {
        AnnounceRemoved(prefix);
      } else {
        assert groups - {prefix} == groups;
        NothingRemoved(s, prefix);
      }
      SameRegistry(s, View());
      RemoveOutcome(s, View(), prefix);
    }

    method AnnounceRemoved(prefix: string)
      requires TableOk(View()) && prefix in groups
      modifies this
      ensures View() == old(View()).(groups := old(groups) - {prefix}, views := views)
      ensures Effect(old(View()), old(views), views, RemovedUnder(old(View()), prefix))
    {
      hide Query;
      hide Effect;
      hide ChangesUnder;
      ghost var s := View();
      var group := groups[prefix];
      groups := groups - {prefix};
      var actions := if group in contents then contents[group] else map[];
      var rest := actions.Keys;
      ghost var done: map<string, Change> := map[];
      EffectNone(s, views);
      ChangesUnderNone(prefix);
      while rest != {}
        invariant rest <= actions.Keys && done.Keys == actions.Keys - rest
        invariant forall n :: n in done ==> done[n] == Removed
        invariant View() == s.(groups := s.groups - {prefix}, views := views)
        invariant Effect(s, s.views, views, ChangesUnder(prefix, done))
        decreases rest
      {
        var n :| n in rest;
        EffectSnocUnder(s, s.views, views, prefix, done, n, Removed);
        TellWatchers(FullName(prefix, n), Removed, s);
        done := done[n := Removed];
        rest := rest - {n};
      }
      assert done == RemovedActions(Actions(s, group));
    }

    /** Groups and views play no part in the registry. */
    lemma SameRegistry(s: State, t: State)
      requires Registered(s) && t == s.(groups := t.groups, contents := t.contents, views := t.views)
      ensures Registered(t) && TableOk(t)
    {
      assert forall f, o :: Times(t, f, o) == Times(s, f, o);
      assert forall a, o :: RecordTimes(t, a, o) == RecordTimes(s, a, o);
    }

    /**
     * g_action_muxer_insert. Observers agree with queries afterwards, except
     * that under a prefix with a dot every watched name concerned must have
     * been routed to the same already.
     */
    method Insert(prefix: string, group: nat)
      requires Valid()
      modifies this
      ensures Registered(View()) && View() == old(View()).(groups := old(groups)[prefix := group], views := views)
      ensures Valid() <==> InsertOk(old(View()), prefix, group)
    {
      hide Query;
      hide Effect;
      hide Registered;
      hide Agrees;
      hide RemovedUnder;
      hide RemoveOk;
      hide InsertOk;
      hide ChangesUnder;
      hide TableOk;
      hide Actions;
      hide AddedActions;
      ghost var before := View();
      RegisteredTable(before);
      Remove(prefix);
      ghost var s := View();
      RegisteredTable(s);
      AnnounceAdded(prefix, group);
      SameRegistry(s, View());
      InsertOutcome(before, s, View(), prefix, group);
    }

    /** The rest of g_action_muxer_insert, after the call of g_action_muxer_remove */
    method AnnounceAdded(prefix: string, group: nat)
      requires TableOk(View()) && prefix !in groups
      modifies this
      ensures View() == old(View()).(groups := old(groups)[prefix := group], views := views)
      ensures Effect(old(View()), old(views), views, ChangesUnder(prefix, AddedActions(Actions(old(View()), group))))
    {
      hide Query;
      hide Effect;
      hide ChangesUnder;
      ghost var s := View();
      groups := groups[prefix := group];
      var actions := if group in contents then contents[group] else map[];
      var rest := actions.Keys;
      ghost var done: map<string, Change> := map[];
      EffectNone(s, views);
      ChangesUnderNone(prefix);
      while rest != {}
        invariant rest <= actions.Keys && done.Keys == actions.Keys - rest
        invariant forall n :: n in done ==> done[n] == Added(actions[n])
        invariant View() == s.(groups := s.groups[prefix := group], views := views)
        invariant Effect(s, s.views, views, ChangesUnder(prefix, done))
        decreases rest
      {
        var n :| n in rest;
        EffectSnocUnder(s, s.views, views, prefix, done, n, Added(actions[n]));
        TellWatchers(FullName(prefix, n), Added(actions[n]), s);
        done := done[n := Added(actions[n])];
        rest := rest - {n};
      }
      assert done == AddedActions(Actions(s, group));
    }

    /**
     * A group changes one of its actions and emits the signal for it, which
     * the muxer handles once for every prefix of the group. Observers agree
     * with queries afterwards, except that under a prefix with a dot the
     * watched name must have been routed to what is announced already.
     */
    method GroupSignal(group: nat, name: string, c: Change)
      requires Valid()
      modifies this
      ensures Registered(View())
      ensures contents == old(contents)[group := ChangedActions(Actions(old(View()), group), name, c)]
      ensures View() == old(View()).(contents := contents, views := views)
      ensures Effect(old(View()), old(views), views, SignalUnder(old(View()), group, name, c))
      ensures Valid() <==> SignalOk(old(View()), group, name, c)
    {
      hide Query;
      hide Effect;
      hide Registered;
      hide Agrees;
      hide FullName;
      hide SignalOk;
      hide SignalUnder;
      ghost var s := View();
      RegisteredTable(s);
      var actions := if group in contents then contents[group] else map[];
      contents := contents[group := ChangedActions(actions, name, c)];
      TellPrefixes(group, name, c, s);
      SameRegistry(s, View());
      DottedSignal(s, View(), group, name, c);
    }

    /** The emission of a group's signal: one handler per prefix of the group. */
    method TellPrefixes(group: nat, name: string, c: Change, ghost s: State)
      requires TableOk(s) && View() == s.(contents := contents)
      modifies this`views
      ensures View() == s.(contents := contents, views := views)
      ensures Effect(s, s.views, views, SignalUnder(s, group, name, c))
    {
      hide Effect;
      hide FullName;
      hide TableOk;
      hide SignalUnder;
      var rest := set p | p in groups && groups[p] == group;
      ghost var told: map<string, Change> := map[];
      EffectNone(s, views);
      PrefixesDistinct(name);
      while rest != {}
        invariant forall p :: p in rest ==> p in groups && groups[p] == group
        invariant View() == s.(contents := contents, views := views)
        invariant forall f :: f in told ==> told[f] == c && IsNameOf(s, group, name, f)
        invariant forall p :: p in groups && groups[p] == group && p !in rest ==> FullName(p, name) in told
        invariant forall p :: p in rest ==> FullName(p, name) !in told
        invariant Effect(s, s.views, views, told)
        decreases rest
      {
        var p :| p in rest;
        EffectSnoc(s, s.views, views, told, FullName(p, name), c);
        TellWatchers(FullName(p, name), c, s);
        assert IsNameOf(s, group, name, FullName(p, name));
        told := told[FullName(p, name) := c];
        rest := rest - {p};
      }
      AllTold(s, group, name, c, told);
    }
  }

  lemma AllTold(s: State, group: nat, name: string, c: Change, told: map<string, Change>)
    requires forall f :: f in told ==> told[f] == c && IsNameOf(s, group, name, f)
    requires forall p :: p in s.groups && s.groups[p] == group ==> FullName(p, name) in told
    ensures told == SignalUnder(s, group, name, c)
  {
    hide FullName;
    hide SignalUnder;
  }

  lemma NothingRemoved(s: State, prefix: string)
    requires prefix !in s.groups
    ensures Effect(s, s.views, s.views, RemovedUnder(s, prefix))
  {
    EffectNone(s, s.views);
  }

  lemma RemoveOutcome(s: State, t: State, prefix: string)
    requires TableOk(s) && Agrees(s) && t == s.(groups := s.groups - {prefix}, views := t.views)
    requires Effect(s, s.views, t.views, RemovedUnder(s, prefix))
    ensures Agrees(t) <==> RemoveOk(s, prefix)
  {
    hide Query;
    hide Effect;
    hide Agrees;
    if '.' in prefix {
      DottedRemove(s, t, prefix);
    } else if prefix in s.groups {
      RemoveAnnounced(s, t, prefix);
      ToldTheTruth(s, t, RemovedUnder(s, prefix));
    } else {
      assert t.groups == s.groups;
      ToldNothing(s, t);
    }
  }

  lemma ToldNothing(s: State, t: State)
    requires Agrees(s) && t == s.(views := t.views) && Effect(s, s.views, t.views, map[])
    ensures Agrees(t)
  {
    SameQuery(s, t);
    ToldTheTruth(s, t, map[]);
  }

  lemma InsertOutcome(before: State, s: State, t: State, prefix: string, group: nat)
    requires TableOk(before) && Agrees(before) && prefix !in s.groups
    requires s == before.(groups := before.groups - {prefix}, views := s.views)
    requires Effect(before, before.views, s.views, RemovedUnder(before, prefix))
    requires Agrees(s) <==> RemoveOk(before, prefix)
    requires t == s.(groups := s.groups[prefix := group], views := t.views)
    requires Effect(s, s.views, t.views, ChangesUnder(prefix, AddedActions(Actions(s, group))))
    ensures t == before.(groups := before.groups[prefix := group], views := t.views)
    ensures Agrees(t) <==> InsertOk(before, prefix, group)
  {
    hide Query;
    hide Effect;
    hide Agrees;
    hide RemovedUnder;
    hide ChangesUnder;
    hide Actions;
    hide AlreadyThere;
    hide AlreadyGone;
    assert t.groups == before.groups[prefix := group];
    if '.' in prefix {
      AddedTo(before, s, t, prefix, group);
      DottedInsert(before, t, prefix, group);
    } else {
      InsertAnnounced(s, t, prefix, group);
      ToldTheTruth(s, t, ChangesUnder(prefix, AddedActions(Actions(s, group))));
    }
  }

  lemma AddedTo(before: State, between: State, after: State, prefix: string, group: nat)
    requires between.table == before.table && between.records == before.records && between.contents == before.contents
    requires Effect(before, before.views, between.views, RemovedUnder(before, prefix))
    requires Effect(between, between.views, after.views, ChangesUnder(prefix, AddedActions(Actions(between, group))))
    ensures Effect(before, before.views, after.views, ReplacedUnder(before, prefix, group))
  {
    hide Effect;
    hide RemovedUnder;
    var added := ChangesUnder(prefix, AddedActions(Actions(before, group)));
    assert Actions(between, group) == Actions(before, group);
    EffectSame(before, between, between.views, after.views, added);
    forall f | f in added ensures added[f].Added? {
      var n :| n in AddedActions(Actions(before, group)) && f == FullName(prefix, n);
    }
    EffectBoth(before, before.views, between.views, after.views, RemovedUnder(before, prefix), added);
  }

  lemma ChangesUnderNone(prefix: string)
    ensures ChangesUnder(prefix, map[]) == map[]
  {
  }

  lemma EffectSnocUnder(
      s: State, before: map<(nat, string), Option<Info>>, after: map<(nat, string), Option<Info>>,
      prefix: string, done: map<string, Change>, n: string, c: Change)
    requires Effect(s, before, after, ChangesUnder(prefix, done)) && n !in done
    ensures Effect(s, before, Tell(after, Watchers(s, FullName(prefix, n)), FullName(prefix, n), c),
                   ChangesUnder(prefix, done[n := c]))
  {
    hide Effect;
    hide Tell;
    hide TableOk;
    FullNameInjective(prefix);
    var f := FullName(prefix, n);
    var changes := ChangesUnder(prefix, done);
    EffectSnoc(s, before, after, changes, f, c);
    assert ChangesUnder(prefix, done[n := c]) == changes[f := c];
  }

  /** Two prefixes never make the same full name of one action. */
  lemma PrefixesDistinct(name: string)
    ensures forall p, q :: FullName(p, name) == FullName(q, name) ==> p == q
  {
    forall p, q | FullName(p, name) == FullName(q, name) ensures p == q {
      var f := FullName(p, name);
      assert p == f[..|f| - |name| - 1] && q == f[..|f| - |name| - 1];
    }
  }
}
