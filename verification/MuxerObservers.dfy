/** Notifications keep every observer's view equal to what a query would return. */
module MuxerObservers {
  import opened Wrappers
  import opened MuxerModel

  /** The watchers of each changed name have been told of its change, and nobody else of anything. */
  ghost predicate Effect(
      s: State, before: map<(nat, string), Option<Info>>, after: map<(nat, string), Option<Info>>,
      changes: map<string, Change>)
  {
    forall o: nat, f: string :: EffectAt(s, before, after, changes, o, f)
  }

  ghost predicate EffectAt(
      s: State, before: map<(nat, string), Option<Info>>, after: map<(nat, string), Option<Info>>,
      changes: map<string, Change>, o: nat, f: string)
  {
    ViewOf(after, o, f) ==
    if f in changes && o in Watchers(s, f) then Told(ViewOf(before, o, f), changes[f]) else ViewOf(before, o, f)
  }

  lemma EffectNone(s: State, views: map<(nat, string), Option<Info>>)
    ensures Effect(s, views, views, map[])
  {
  }

  lemma EffectSnoc(
      s: State, before: map<(nat, string), Option<Info>>, after: map<(nat, string), Option<Info>>,
      changes: map<string, Change>, fullname: string, c: Change)
    requires Effect(s, before, after, changes) && fullname !in changes
    ensures Effect(s, before, Tell(after, Watchers(s, fullname), fullname, c), changes[fullname := c])
  {
    var final := Tell(after, Watchers(s, fullname), fullname, c);
    var more := changes[fullname := c];
    forall o: nat, f: string ensures EffectAt(s, before, final, more, o, f) {
      assert EffectAt(s, before, after, changes, o, f);
      TellEffect(after, Watchers(s, fullname), fullname, c, o, f);
    }
  }

  /** What querying returns has changed exactly as announced. */
  ghost predicate QueryChange(s: State, t: State, changes: map<string, Change>) {
    forall f :: Query(t, f) == if f in changes then Told(Query(s, f), changes[f]) else Query(s, f)
  }

  /** Observers who are told exactly what has changed stay in agreement. */
  lemma ToldTheTruth(s: State, t: State, changes: map<string, Change>)
    requires Agrees(s) && t.table == s.table && t.records == s.records
    requires Effect(s, s.views, t.views, changes) && QueryChange(s, t, changes)
    ensures Agrees(t)
  {
    hide Query;
    forall o: nat, f: string | f in t.table && o in Watchers(t, f) ensures ViewOf(t.views, o, f) == Query(t, f) {
      assert EffectAt(s, s.views, t.views, changes, o, f);
      assert Watchers(s, f) == Watchers(t, f);
    }
  }

  /** With a watcher for each name in the table, agreement afterwards says exactly that they were told the truth. */
  lemma ToldExactly(s: State, t: State, changes: map<string, Change>)
    requires TableOk(s) && Agrees(s) && t.table == s.table && t.records == s.records
    requires Effect(s, s.views, t.views, changes)
    ensures Agrees(t) <==> forall f :: f in s.table ==>
              Query(t, f) == if f in changes then Told(Query(s, f), changes[f]) else Query(s, f)
  {
    hide Query;
    forall o: nat, f: string | f in s.table && o in Watchers(s, f)
      ensures ViewOf(t.views, o, f) == if f in changes then Told(Query(s, f), changes[f]) else Query(s, f)
    {
      assert EffectAt(s, s.views, t.views, changes, o, f);
    }
    forall f ensures Watchers(s, f) == Watchers(t, f) { SameWatchers(s, t, f); }
    if Agrees(t) {
      forall f | f in s.table
        ensures Query(t, f) == if f in changes then Told(Query(s, f), changes[f]) else Query(s, f)
      {
        assert Watchers(t, f)[0] in Watchers(t, f);
      }
    }
  }

  // ---- What each operation announces --------------------------------------------------

  /** The changes announced for the actions of one group under one prefix. */
  function ChangesUnder(prefix: string, changed: map<string, Change>): (r: map<string, Change>)
    ensures forall n :: n in changed ==> FullName(prefix, n) in r && r[FullName(prefix, n)] == changed[n]
    ensures forall f :: f in r ==> exists n :: n in changed && f == FullName(prefix, n)
  {
    FullNameInjective(prefix);
    map n | n in changed :: FullName(prefix, n) := changed[n]
  }

  lemma FullNameInjective(prefix: string)
    ensures forall m, n :: FullName(prefix, m) == FullName(prefix, n) ==> m == n
  {
    forall m, n | FullName(prefix, m) == FullName(prefix, n) ensures m == n {
      assert m == FullName(prefix, m)[|prefix| + 1..];
      assert n == FullName(prefix, n)[|prefix| + 1..];
    }
  }

  function RemovedActions(actions: map<string, Info>): map<string, Change> {
    map n | n in actions :: Removed
  }

  function AddedActions(actions: map<string, Info>): map<string, Change> {
    map n | n in actions :: Added(actions[n])
  }

  function Actions(s: State, group: nat): map<string, Info> {
    if group in s.contents then s.contents[group] else map[]
  }

  /** The name under a prefix, if it is one: for a dot-free prefix that is decided by the first dot. */
  lemma Under(prefix: string, f: string)
    requires '.' !in prefix
    ensures Split(f).Some? && Split(f).value.0 == prefix ==> f == FullName(prefix, Split(f).value.1)
    ensures forall n :: f == FullName(prefix, n) ==> Split(f) == Some((prefix, n))
  {
    FullNameSplit(f);
    forall n | f == FullName(prefix, n) ensures Split(f) == Some((prefix, n)) { SplitFullName(prefix, n); }
  }

  lemma RemoveAnnounced(s: State, t: State, prefix: string)
    requires prefix in s.groups && '.' !in prefix
    requires t.groups == s.groups - {prefix} && t.contents == s.contents
    ensures QueryChange(s, t, ChangesUnder(prefix, RemovedActions(Actions(s, s.groups[prefix]))))
  {
    var changes := ChangesUnder(prefix, RemovedActions(Actions(s, s.groups[prefix])));
    forall f ensures Query(t, f) == if f in changes then Told(Query(s, f), changes[f]) else Query(s, f) {
      Under(prefix, f);
    }
  }

  lemma InsertAnnounced(s: State, t: State, prefix: string, group: nat)
    requires prefix !in s.groups && '.' !in prefix
    requires t.groups == s.groups[prefix := group] && t.contents == s.contents
    ensures QueryChange(s, t, ChangesUnder(prefix, AddedActions(Actions(s, group))))
  {
    hide Query;
    hide FullName;
    hide ChangesUnder;
    hide AddedActions;
    var changes := ChangesUnder(prefix, AddedActions(Actions(s, group)));
    forall f ensures Query(t, f) == if f in changes then Told(Query(s, f), changes[f]) else Query(s, f) {
      InsertedName(s, t, prefix, group, f);
    }
  }

  lemma InsertedName(s: State, t: State, prefix: string, group: nat, f: string)
    requires prefix !in s.groups && '.' !in prefix
    requires t.groups == s.groups[prefix := group] && t.contents == s.contents
    ensures var changes := ChangesUnder(prefix, AddedActions(Actions(s, group)));
            Query(t, f) == if f in changes then Told(Query(s, f), changes[f]) else Query(s, f)
  {
    hide FullName;
    hide Split;
    hide ChangesUnder;
    var actions := Actions(s, group);
    Under(prefix, f);
    match Split(f)
    case None => assert forall n :: f != FullName(prefix, n);
    case Some((p, n)) =>
      if p == prefix {
        FullNameInjective(prefix);
        assert n in AddedActions(actions) <==> n in actions;
      } else {
        assert forall k :: f != FullName(prefix, k);
      }
  }

  /** A group's own state after one of its actions has changed. */
  function ChangedActions(actions: map<string, Info>, name: string, c: Change): map<string, Info> {
    match c
    case Added(info) => actions[name := info]
    case Removed => actions - {name}
    case EnabledChanged(enabled) =>
      if name in actions then actions[name := actions[name].(enabled := enabled)] else actions
    case StateChanged(state) =>
      if name in actions then actions[name := actions[name].(state := state)] else actions
  }

  /** The names under which a group's action appears: one per prefix of the group. */
  ghost predicate IsNameOf(s: State, group: nat, name: string, f: string) {
    exists p :: p in s.groups && s.groups[p] == group && f == FullName(p, name)
  }

  /** What a group's signal announces: its change, under each of these names. */
  ghost function SignalUnder(s: State, group: nat, name: string, c: Change): (r: map<string, Change>)
    ensures forall f :: f in r <==> IsNameOf(s, group, name, f)
    ensures forall f :: f in r ==> r[f] == c
  {
    var names := set p | p in s.groups && s.groups[p] == group :: FullName(p, name);
    map f | f in names :: c
  }

  /**
   * A group's signal is what changes for queries under each prefix without a
   * dot, and under those with a dot nothing changes.
   */
  lemma SignalAnnounced(s: State, t: State, group: nat, name: string, c: Change)
    requires t.groups == s.groups && t.contents == s.contents[group := ChangedActions(Actions(s, group), name, c)]
    ensures forall p :: p in s.groups && s.groups[p] == group ==>
              var f := FullName(p, name);
              Query(t, f) == if '.' in p then Query(s, f) else Told(Query(s, f), c)
    ensures forall f :: f !in SignalUnder(s, group, name, c) ==> Query(t, f) == Query(s, f)
  {
    forall p | p in s.groups && s.groups[p] == group
      ensures var f := FullName(p, name);
              Query(t, f) == if '.' in p then Query(s, f) else Told(Query(s, f), c)
    {
      if '.' in p {
        DottedRest(p, name);
      } else {
        SplitFullName(p, name);
      }
    }
    forall f | f !in SignalUnder(s, group, name, c) ensures Query(t, f) == Query(s, f) {
      FullNameSplit(f);
      if Split(f).Some? && Split(f).value.0 in s.groups && s.groups[Split(f).value.0] == group {
        assert Split(f).value.1 != name;
      }
    }
  }

  /** The name behind the first dot is longer than the action's if the prefix has a dot. */
  lemma DottedRest(prefix: string, name: string)
    requires '.' in prefix
    ensures var f := FullName(prefix, name); Split(f).Some? ==> |Split(f).value.1| > |name|
  {
    var f := FullName(prefix, name);
    FullNameSplit(f);
    if Split(f).Some? {
      var p := Split(f).value.0;
      var k :| 0 <= k < |prefix| && prefix[k] == '.';
      assert f[k] == '.' && p == f[..|p|];
    }
  }

  // ---- Prefixes with a dot --------------------------------------------------------------

  /** No name is ever routed to a prefix that contains a dot. */
  lemma DottedPrefixUnreachable(s: State, t: State, prefix: string)
    requires '.' in prefix
    requires t.contents == s.contents && t.groups - {prefix} == s.groups - {prefix}
    ensures forall f :: Query(t, f) == Query(s, f)
  {
    forall f ensures Query(t, f) == Query(s, f) {
      FullNameSplit(f);
      if Split(f).Some? {
        var p := Split(f).value.0;
        assert p != prefix;
        assert p in t.groups <==> p in (t.groups - {prefix});
        assert p in s.groups <==> p in (s.groups - {prefix});
        if p in s.groups { assert s.groups[p] == (s.groups - {prefix})[p] == (t.groups - {prefix})[p] == t.groups[p]; }
      }
    }
  }

  /** What removing a prefix announces */
  function RemovedUnder(s: State, prefix: string): map<string, Change> {
    if prefix in s.groups then ChangesUnder(prefix, RemovedActions(Actions(s, s.groups[prefix]))) else map[]
  }

  /** What inserting a group announces, the group that was there having been removed first */
  function ReplacedUnder(s: State, prefix: string, group: nat): map<string, Change> {
    RemovedUnder(s, prefix) + ChangesUnder(prefix, AddedActions(Actions(s, group)))
  }

  /** Two announcements, the later one of which adds, amount to one. */
  lemma EffectBoth(
      s: State, before: map<(nat, string), Option<Info>>, between: map<(nat, string), Option<Info>>,
      after: map<(nat, string), Option<Info>>, first: map<string, Change>, second: map<string, Change>)
    requires Effect(s, before, between, first) && Effect(s, between, after, second)
    requires forall f :: f in second ==> second[f].Added?
    ensures Effect(s, before, after, first + second)
  {
    forall o: nat, f: string ensures EffectAt(s, before, after, first + second, o, f) {
      assert EffectAt(s, before, between, first, o, f) && EffectAt(s, between, after, second, o, f);
    }
  }

  lemma EffectSame(
      s: State, t: State, before: map<(nat, string), Option<Info>>, after: map<(nat, string), Option<Info>>,
      changes: map<string, Change>)
    requires Effect(t, before, after, changes) && t.table == s.table && t.records == s.records
    ensures Effect(s, before, after, changes)
  {
    forall o: nat, f: string ensures EffectAt(s, before, after, changes, o, f) {
      assert EffectAt(t, before, after, changes, o, f);
      SameWatchers(s, t, f);
    }
  }

  /**
   * Changes that are announced although no query has changed: the observers
   * still agree afterwards if and only if each watched name already was as
   * announced.
   */
  lemma AnnouncedAnyway(s: State, t: State, changes: map<string, Change>)
    requires TableOk(s) && Agrees(s) && t.table == s.table && t.records == s.records
    requires forall f :: Query(t, f) == Query(s, f)
    requires Effect(s, s.views, t.views, changes)
    ensures Agrees(t) <==> forall f :: f in changes && f in s.table ==> Told(Query(s, f), changes[f]) == Query(s, f)
  {
    hide Query;
    hide Effect;
    ToldExactly(s, t, changes);
  }

  /** The watched names under the prefixes with a dot are routed to what the signal announces. */
  ghost predicate SignalOk(s: State, group: nat, name: string, c: Change) {
    forall p :: p in s.groups && s.groups[p] == group && '.' in p && FullName(p, name) in s.table ==>
      Told(Query(s, FullName(p, name)), c) == Query(s, FullName(p, name))
  }

  /**
   * A group's signal keeps observers and queries in agreement if and only if
   * each watched name under a prefix of the group with a dot is routed,
   * through its first dot, to something that is as announced.
   */
  lemma DottedSignal(s: State, t: State, group: nat, name: string, c: Change)
    requires TableOk(s) && Agrees(s) && t.table == s.table && t.records == s.records
    requires t.groups == s.groups && t.contents == s.contents[group := ChangedActions(Actions(s, group), name, c)]
    requires Effect(s, s.views, t.views, SignalUnder(s, group, name, c))
    ensures Agrees(t) <==> SignalOk(s, group, name, c)
  {
    hide Query;
    hide Effect;
    hide FullName;
    var told := SignalUnder(s, group, name, c);
    ToldExactly(s, t, told);
    SignalAnnounced(s, t, group, name, c);
    forall p | p in s.groups && s.groups[p] == group ensures FullName(p, name) in told {
      assert IsNameOf(s, group, name, FullName(p, name));
    }
  }

  /** Without a dot in the prefix any removal is right; with one, the watched names must lead nowhere. */
  ghost predicate RemoveOk(s: State, prefix: string) {
    '.' in prefix ==> forall f :: f in RemovedUnder(s, prefix) && f in s.table ==> Query(s, f) == None
  }

  ghost predicate InsertOk(s: State, prefix: string, group: nat) {
    '.' in prefix ==> forall n :: AlreadyThere(s, prefix, group, n) && AlreadyGone(s, prefix, group, n)
  }

  /**
   * Removing a group under a prefix with a dot keeps observers and queries in
   * agreement if and only if every watched name of the group is routed,
   * through its first dot, to nothing.
   */
  lemma DottedRemove(s: State, t: State, prefix: string)
    requires TableOk(s) && Agrees(s) && t.table == s.table && t.records == s.records
    requires '.' in prefix && t.groups == s.groups - {prefix} && t.contents == s.contents
    requires Effect(s, s.views, t.views, RemovedUnder(s, prefix))
    ensures Agrees(t) <==>
            forall f :: f in RemovedUnder(s, prefix) && f in s.table ==> Query(s, f) == None
  {
    hide Query;
    hide Effect;
    assert t.groups - {prefix} == s.groups - {prefix};
    DottedPrefixUnreachable(s, t, prefix);
    AnnouncedAnyway(s, t, RemovedUnder(s, prefix));
  }

  /** A watched name of the new group is routed to an equal action. */
  predicate AlreadyThere(s: State, prefix: string, group: nat, n: string) {
    var f := FullName(prefix, n);
    n in Actions(s, group) && f in s.table ==> Query(s, f) == Some(Actions(s, group)[n])
  }

  /** A watched name of a group that is replaced, without a successor in the new one, is routed to nothing. */
  predicate AlreadyGone(s: State, prefix: string, group: nat, n: string) {
    var f := FullName(prefix, n);
    (prefix in s.groups && n in Actions(s, s.groups[prefix]) && n !in Actions(s, group) && f in s.table)
    ==> Query(s, f) == None
  }

  /**
   * Inserting a group under a prefix with a dot, which the documentation
   * forbids, keeps them in agreement if and only if every watched name of the
   * group is routed, through its first dot, to an equal action, and every
   * watched name of a group that was replaced and has no successor to nothing.
   */
  lemma DottedInsert(s: State, t: State, prefix: string, group: nat)
    requires TableOk(s) && Agrees(s) && t.table == s.table && t.records == s.records
    requires '.' in prefix && t.groups == s.groups[prefix := group] && t.contents == s.contents
    requires Effect(s, s.views, t.views, ReplacedUnder(s, prefix, group))
    ensures Agrees(t) <==> forall n :: AlreadyThere(s, prefix, group, n) && AlreadyGone(s, prefix, group, n)
  {
    hide Query;
    hide Effect;
    hide ReplacedUnder;
    hide AlreadyThere;
    hide AlreadyGone;
    assert t.groups - {prefix} == s.groups - {prefix};
    DottedPrefixUnreachable(s, t, prefix);
    var changes := ReplacedUnder(s, prefix, group);
    AnnouncedAnyway(s, t, changes);
    forall n
      ensures var f := FullName(prefix, n);
              AlreadyThere(s, prefix, group, n) && AlreadyGone(s, prefix, group, n) <==>
              (f in changes && f in s.table ==> Told(Query(s, f), changes[f]) == Query(s, f))
    {
      ReplacedName(s, prefix, group, n);
    }
    forall f | f in changes ensures exists n :: f == FullName(prefix, n) { ReplacedIsUnder(s, prefix, group, f); }
  }

  lemma ReplacedIsUnder(s: State, prefix: string, group: nat, f: string)
    requires f in ReplacedUnder(s, prefix, group)
    ensures exists n :: f == FullName(prefix, n)
  {
    hide Actions;
  }

  lemma ReplacedName(s: State, prefix: string, group: nat, n: string)
    ensures var changes := ReplacedUnder(s, prefix, group); var f := FullName(prefix, n);
            AlreadyThere(s, prefix, group, n) && AlreadyGone(s, prefix, group, n) <==>
            (f in changes && f in s.table ==> Told(Query(s, f), changes[f]) == Query(s, f))
  {
    hide Actions;
    hide Query;
    FullNameInjective(prefix);
    if n in Actions(s, group) {
      assert n in AddedActions(Actions(s, group));
    } else if prefix in s.groups && n in Actions(s, s.groups[prefix]) {
      OnlyRemoved(s, prefix, group, n);
    }
  }

  lemma OnlyRemoved(s: State, prefix: string, group: nat, n: string)
    requires prefix in s.groups && n in Actions(s, s.groups[prefix]) && n !in Actions(s, group)
    ensures var changes := ReplacedUnder(s, prefix, group);
            FullName(prefix, n) in changes && changes[FullName(prefix, n)] == Removed
  {
    hide Actions;
    FullNameInjective(prefix);
    assert n in RemovedActions(Actions(s, s.groups[prefix]));
    assert n !in AddedActions(Actions(s, group));
  }

  lemma SameWatchers(s: State, t: State, f: string)
    requires t.table == s.table && t.records == s.records
    ensures Watchers(s, f) == Watchers(t, f)
  {
  }
}
