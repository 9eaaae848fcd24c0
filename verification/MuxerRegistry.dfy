/** Registering and unregistering observers: multiplicities, struct lifetimes and references. */
module MuxerRegistry {
  import opened Lists
  import opened MuxerModel

  // ---- Multiplicities -----------------------------------------------------------

  /** How often an observer is in a list of watchers. */
  function Count(ws: seq<nat>, o: nat): nat {
    if ws == [] then 0 else Count(ws[1..], o) + if ws[0] == o then 1 else 0
  }

  lemma {:induction false} CountPositive(ws: seq<nat>, o: nat)
    ensures Count(ws, o) > 0 <==> o in ws
  {
    if ws != [] {
      CountPositive(ws[1..], o);
      assert ws == [ws[0]] + ws[1..];
    }
  }

  /** The loop of unregister_internal: the first occurrence is unlinked. */
  lemma {:induction false} CountWithout(ws: seq<nat>, o: nat, p: nat)
    ensures Count(Without(ws, o), p) == if p == o && Count(ws, o) > 0 then Count(ws, p) - 1 else Count(ws, p)
  {
    if ws != [] && ws[0] != o {
      CountWithout(ws[1..], o, p);
      var r := Without(ws, o);
      assert r[1..] == Without(ws[1..], o);
    }
  }

  // ---- Operations -----------------------------------------------------------------

  /** g_action_muxer_register_observer; the observer starts from what query_action tells it. */
  function Register(s: State, fullname: string, o: nat): State
    requires TableOk(s)
  {
    var isNew := fullname !in s.table;
    var a := if isNew then s.nextId else s.table[fullname];
    var ws := if isNew then [] else s.records[a].watchers;
    s.(table := s.table[fullname := a],
       records := s.records[a := Action(fullname, [o] + ws)],
       weakRefs := s.weakRefs + multiset{(o, a)},
       extraRefs := if isNew then s.extraRefs + 1 else s.extraRefs,
       nextId := if isNew then s.nextId + 1 else s.nextId,
       registrations := s.registrations + multiset{(o, fullname)},
       views := s.views[(o, fullname) := Query(s, fullname)])
  }

  /** g_action_muxer_unregister_internal */
  function UnregisterInternal(s: State, a: nat, o: nat): State
    requires a in s.records
  {
    var action := s.records[a];
    if o !in action.watchers then s
    else
      var ws := Without(action.watchers, o);
      if ws != [] then s.(records := s.records[a := action.(watchers := ws)])
      else s.(table := s.table - {action.fullname}, records := s.records - {a},
              extraRefs := if s.extraRefs > 0 then s.extraRefs - 1 else 0)
  }

  /** One weak reference goes, and with it one registration. */
  function Forget(s: State, a: nat, o: nat): State
    requires a in s.records
  {
    UnregisterInternal(
      s.(weakRefs := s.weakRefs - multiset{(o, a)},
         registrations := s.registrations - multiset{(o, s.records[a].fullname)}),
      a, o)
  }

  /** g_action_muxer_unregister_observer, of something registered. */
  function Unregister(s: State, fullname: string, o: nat): State
    requires TableOk(s) && fullname in s.table
  {
    Forget(s, s.table[fullname], o)
  }

  // ---- Invariant --------------------------------------------------------------------

  function Times(s: State, fullname: string, o: nat): nat
    requires TableOk(s)
  {
    if fullname in s.table then Count(s.records[s.table[fullname]].watchers, o) else 0
  }

  function RecordTimes(s: State, a: nat, o: nat): nat {
    if a in s.records then Count(s.records[a].watchers, o) else 0
  }

  /**
   * The watchers of a name are its outstanding registrations, with their
   * multiplicity; a name is in the table exactly when it has some; each
   * watcher entry is matched by one weak reference to a live struct; and the
   * muxer is referenced once per table entry.
   */
  ghost predicate Registered(s: State)
  {
    && TableOk(s)
    && (forall f, o :: s.registrations[(o, f)] == Times(s, f, o))
    && (forall a, o :: s.weakRefs[(o, a)] == RecordTimes(s, a, o))
    && s.extraRefs == |s.table|
  }

  lemma CountCons(ws: seq<nat>, o: nat, p: nat)
    ensures Count([o] + ws, p) == Count(ws, p) + if p == o then 1 else 0
  {
    assert ([o] + ws)[1..] == ws;
  }

  lemma InsertSize(table: map<string, nat>, f: string, a: nat)
    ensures |table[f := a]| == |table| + if f in table then 0 else 1
  {
    var t := table[f := a];
    assert t.Keys == table.Keys + {f};
    assert |t| == |t.Keys| && |table| == |table.Keys|;
  }

  lemma RegisterTable(s: State, fullname: string, o: nat)
    requires TableOk(s)
    ensures var t := Register(s, fullname, o);
            TableOk(t) && fullname in t.table
  {
    hide Query;
    hide Count;
    var t := Register(s, fullname, o);
    var a := t.table[fullname];
    forall f | f in t.table
      ensures t.table[f] in t.records && t.records[t.table[f]].fullname == f && t.records[t.table[f]].watchers != []
    {
      if f != fullname { assert s.table[f] in s.records && s.records[s.table[f]].fullname == f; }
    }
    forall b | b in t.records
      ensures b < t.nextId && t.records[b].fullname in t.table && t.table[t.records[b].fullname] == b
    {
      if b != a { assert s.records[b].fullname in s.table && s.table[s.records[b].fullname] == b; }
    }
  }

  lemma RegisterTimes(s: State, fullname: string, o: nat, f: string, p: nat)
    requires TableOk(s) && TableOk(Register(s, fullname, o))
    ensures Times(Register(s, fullname, o), f, p) == Times(s, f, p) + if f == fullname && p == o then 1 else 0
  {
    hide Query;
    hide Count;
    CountCons(if fullname in s.table then s.records[s.table[fullname]].watchers else [], o, p);
    CountNil(p);
  }

  lemma CountNil(p: nat)
    ensures Count([], p) == 0
  {
  }

  lemma RegisterRecordTimes(s: State, fullname: string, o: nat, b: nat, p: nat)
    requires TableOk(s)
    ensures var t := Register(s, fullname, o);
            RecordTimes(t, b, p) == RecordTimes(s, b, p) + if b == t.table[fullname] && p == o then 1 else 0
  {
    hide Query;
    hide Count;
    CountCons(if fullname in s.table then s.records[s.table[fullname]].watchers else [], o, p);
    CountNil(p);
  }

  lemma RegisterKeeps(s: State, fullname: string, o: nat)
    requires Registered(s)
    ensures Registered(Register(s, fullname, o))
  {
    hide Register;
    hide Times;
    hide RecordTimes;
    hide TableOk;
    RegisterTable(s, fullname, o);
    RegisterHistory(s, fullname, o);
    InsertSize(s.table, fullname, if fullname in s.table then s.table[fullname] else s.nextId);
    var t := Register(s, fullname, o);
    forall f, p ensures t.registrations[(p, f)] == Times(t, f, p) {
      assert s.registrations[(p, f)] == Times(s, f, p);
      RegisterTimes(s, fullname, o, f, p);
    }
    forall b, p ensures t.weakRefs[(p, b)] == RecordTimes(t, b, p) {
      assert s.weakRefs[(p, b)] == RecordTimes(s, b, p);
      RegisterRecordTimes(s, fullname, o, b, p);
    }
  }

  lemma RegisterHistory(s: State, fullname: string, o: nat)
    requires TableOk(s)
    ensures var t := Register(s, fullname, o);
            && fullname in t.table
            && t.registrations == s.registrations + multiset{(o, fullname)}
            && t.weakRefs == s.weakRefs + multiset{(o, t.table[fullname])}
            && t.table == s.table[fullname := if fullname in s.table then s.table[fullname] else s.nextId]
            && t.extraRefs == s.extraRefs + if fullname in s.table then 0 else 1
  {
    hide Query;
  }

  lemma TableSize(table: map<string, nat>, f: string)
    requires f in table
    ensures |table - {f}| == |table| - 1
  {
    var t := table - {f};
    assert table.Keys == t.Keys + {f};
  }

  lemma ForgetTable(s: State, a: nat, o: nat)
    requires TableOk(s) && a in s.records && o in s.records[a].watchers
    ensures TableOk(Forget(s, a, o))
  {
    hide TableOk;
    if Without(s.records[a].watchers, o) == [] {
      ForgetTableLast(s, a, o);
    } else {
      ForgetTableMore(s, a, o);
    }
  }

  lemma ForgetTableLast(s: State, a: nat, o: nat)
    requires TableOk(s) && a in s.records && o in s.records[a].watchers && Without(s.records[a].watchers, o) == []
    ensures TableOk(Forget(s, a, o))
  {
    hide Without;
    var t := Forget(s, a, o);
    assert t.records == s.records - {a} && t.table == s.table - {s.records[a].fullname};
  }

  lemma ForgetTableMore(s: State, a: nat, o: nat)
    requires TableOk(s) && a in s.records && o in s.records[a].watchers && Without(s.records[a].watchers, o) != []
    ensures TableOk(Forget(s, a, o))
  {
    hide Without;
    var t := Forget(s, a, o);
    assert t.table == s.table && t.records.Keys == s.records.Keys;
  }

  lemma ForgetSize(s: State, a: nat, o: nat)
    requires a in s.records && o in s.records[a].watchers
    requires s.extraRefs == |s.table| && s.records[a].fullname in s.table
    ensures Forget(s, a, o).extraRefs == |Forget(s, a, o).table|
  {
    hide Without;
    TableSize(s.table, s.records[a].fullname);
  }

  lemma TableEntry(s: State, a: nat)
    requires TableOk(s) && a in s.records
    ensures s.records[a].fullname in s.table
  {
  }

  lemma ForgetTimes(s: State, a: nat, o: nat, f: string, p: nat)
    requires TableOk(s) && a in s.records && o in s.records[a].watchers && TableOk(Forget(s, a, o))
    ensures Times(Forget(s, a, o), f, p) == Times(s, f, p) - if f == s.records[a].fullname && p == o then 1 else 0
  {
    hide Count;
    hide Without;
    CountPositive(s.records[a].watchers, o);
    CountWithout(s.records[a].watchers, o, p);
    CountNil(p);
  }

  lemma ForgetRecordTimes(s: State, a: nat, o: nat, b: nat, p: nat)
    requires TableOk(s) && a in s.records && o in s.records[a].watchers
    ensures RecordTimes(Forget(s, a, o), b, p) == RecordTimes(s, b, p) - if b == a && p == o then 1 else 0
  {
    hide Count;
    hide Without;
    CountPositive(s.records[a].watchers, o);
    CountWithout(s.records[a].watchers, o, p);
    CountNil(p);
  }

  lemma ForgetHistory(s: State, a: nat, o: nat)
    requires a in s.records
    ensures var t := Forget(s, a, o);
            && t.registrations == s.registrations - multiset{(o, s.records[a].fullname)}
            && t.weakRefs == s.weakRefs - multiset{(o, a)}
            && t.groups == s.groups && t.contents == s.contents && t.views == s.views
  {
    hide Without;
  }

  lemma ForgetKeeps(s: State, a: nat, o: nat)
    requires Registered(s) && a in s.records && o in s.records[a].watchers
    ensures Registered(Forget(s, a, o))
  {
    hide Forget;
    hide Times;
    hide RecordTimes;
    hide TableOk;
    hide Count;
    ForgetTable(s, a, o);
    TableEntry(s, a);
    ForgetSize(s, a, o);
    ForgetHistory(s, a, o);
    CountAtLeast(s, a, o);
    var t := Forget(s, a, o);
    forall f, p ensures t.registrations[(p, f)] == Times(t, f, p) {
      assert s.registrations[(p, f)] == Times(s, f, p);
      ForgetTimes(s, a, o, f, p);
    }
    forall b, p ensures t.weakRefs[(p, b)] == RecordTimes(t, b, p) {
      assert s.weakRefs[(p, b)] == RecordTimes(s, b, p);
      ForgetRecordTimes(s, a, o, b, p);
    }
  }

  lemma CountAtLeast(s: State, a: nat, o: nat)
    requires TableOk(s) && a in s.records && o in s.records[a].watchers
    ensures Times(s, s.records[a].fullname, o) > 0 && RecordTimes(s, a, o) > 0
  {
    CountPositive(s.records[a].watchers, o);
  }

  /** A weak reference always points to a struct in memory that lists the observer. */
  lemma NoDanglingWeakRef(s: State, a: nat, o: nat)
    requires Registered(s) && (o, a) in s.weakRefs
    ensures a in s.records && o in s.records[a].watchers
  {
    assert s.weakRefs[(o, a)] == RecordTimes(s, a, o);
    if a in s.records { CountPositive(s.records[a].watchers, o); }
  }

  /** What has been registered more often than unregistered is still watched. */
  lemma RegistrationIsWatched(s: State, fullname: string, o: nat)
    requires Registered(s)
    ensures (o, fullname) in s.registrations <==> fullname in s.table && o in Watchers(s, fullname)
  {
    assert s.registrations[(o, fullname)] == Times(s, fullname, o);
    if fullname in s.table { CountPositive(Watchers(s, fullname), o); }
  }

  /** When only its own structs could keep the muxer alive and none does, finalize finds the table empty. */
  lemma FinalizeFindsEmptyTable(s: State)
    requires Registered(s) && s.extraRefs == 0
    ensures |s.table| == 0 && s.records == map[] && s.weakRefs == multiset{}
  {
    assert s.table.Keys == {};
    forall p | p in s.weakRefs ensures p.1 in s.records { NoDanglingWeakRef(s, p.1, p.0); }
  }
}
