/** The single assignments of the batch methods, and what each does to BatchModel.Inv. */
module BatchSteps {
  import opened BatchModel

  // ---- Counting held tasks ------------------------------------------------------

  lemma {:induction false} CountHeldSame(g: Graph, s: State, t: State, ts: seq<nat>)
    requires |s.acquisitions| == |t.acquisitions| == |g.kind|
    requires forall i :: 0 <= i < |ts| ==> Object(g, ts[i]) && Held(g, s, ts[i]) == Held(g, t, ts[i])
    ensures CountHeld(g, s, ts) == CountHeld(g, t, ts)
  {
    if ts != [] { CountHeldSame(g, s, t, ts[..|ts| - 1]); }
  }

  /** One of the tasks stops being held. */
  lemma {:induction false} CountHeldDrops(g: Graph, s: State, t: State, ts: seq<nat>, j: nat)
    requires |s.acquisitions| == |t.acquisitions| == |g.kind| && j < |ts|
    requires forall i :: 0 <= i < |ts| ==> Object(g, ts[i])
    requires forall i :: 0 <= i < |ts| && i != j ==> Held(g, s, ts[i]) == Held(g, t, ts[i])
    requires Held(g, s, ts[j]) && !Held(g, t, ts[j])
    ensures CountHeld(g, s, ts) == CountHeld(g, t, ts) + 1
  {
    var n := |ts| - 1;
    if j == n {
      CountHeldSame(g, s, t, ts[..n]);
    } else {
      CountHeldDrops(g, s, t, ts[..n], j);
    }
  }

  lemma {:induction false} CountHeldNone(g: Graph, s: State, ts: seq<nat>)
    requires |s.acquisitions| == |g.kind|
    requires forall i :: 0 <= i < |ts| ==> Object(g, ts[i])
    ensures CountHeld(g, s, ts) == 0 <==> forall i :: 0 <= i < |ts| ==> !Held(g, s, ts[i])
  {
    if ts != [] { CountHeldNone(g, s, ts[..|ts| - 1]); }
  }

  // ---- History --------------------------------------------------------------------

  lemma OnceSnoc(log: seq<Event>, e: Event)
    requires Once(log) && e !in log
    ensures Once(log + [e])
  {
  }

  /** Appending a release, or the start of a task whose predecessors have finished. */
  lemma OrderSnoc(g: Graph, s: State, t: State, e: Event)
    requires Shape(g, s) && Shape(g, t) && t.tasks == s.tasks && t.log == s.log + [e]
    requires StartsInOrder(g, s)
    requires forall n, i, j ::
      (0 <= n < |g.kind| && g.kind[n].Consecutive? && 0 <= i < j < |s.tasks[n]| && e == Started(s.tasks[n][j])) ==>
        FinishedIn(g, s.tasks[n][i], s.log)
    ensures StartsInOrder(g, t)
  {
    forall k, n, i, j |
      0 <= k < |t.log| && 0 <= n < |g.kind| && g.kind[n].Consecutive? && 0 <= i < j < |t.tasks[n]| &&
      t.log[k] == Started(t.tasks[n][j])
      ensures FinishedIn(g, t.tasks[n][i], t.log[..k])
    {
      if k < |s.log| {
        assert t.log[..k] == s.log[..k];
        assert s.log[k] == t.log[k];
      } else {
        assert t.log[..k] == s.log;
      }
    }
  }

  lemma OrderSame(g: Graph, s: State, t: State)
    requires Shape(g, s) && Shape(g, t) && t.tasks == s.tasks && t.log == s.log && StartsInOrder(g, s)
    ensures StartsInOrder(g, t)
  {
  }

  // ---- Frames ---------------------------------------------------------------------

  /** Two tasks of one batch are distinct objects, and the owner is none of them. */
  lemma TasksDistinct(g: Graph, s: State, n: nat, i: nat, j: nat)
    requires Shape(g, s) && Object(g, n) && i < j < |s.tasks[n]|
    ensures s.tasks[n][i] != s.tasks[n][j]
  {
    assert TasksOk(g, s.tasks[n], n);
  }

  /** A settled batch stays settled when neither it nor any of its tasks is touched. */
  lemma SettledFrame(g: Graph, s: State, t: State, n: nat)
    requires Shape(g, s) && Shape(g, t) && Object(g, n) && Settled(g, s, n)
    requires t.tasks[n] == s.tasks[n] && t.index[n] == s.index[n] && t.acquisitions[n] == s.acquisitions[n]
    requires forall i :: 0 <= i < |s.tasks[n]| ==> SameTask(g, s, t, s.tasks[n][i])
    ensures Settled(g, t, n)
  {
    assert TasksOk(g, s.tasks[n], n);
    if !WaitsAt(g, s, n) {
      CountHeldSame(g, s, t, s.tasks[n][..|s.tasks[n]|]);
    }
  }

  /** Nothing a batch looks at in one of its tasks has changed. */
  predicate SameTask(g: Graph, s: State, t: State, c: nat)
    requires |s.acquisitions| == |t.acquisitions| == |s.connected| == |t.connected| == |g.kind|
  {
    Object(g, c) ==>
      && Held(g, s, c) == Held(g, t, c) && s.connected[c] == t.connected[c]
      && (c in s.unstarted <==> c in t.unstarted)
  }

  /**
   * What a call on object n may change. While the batch that ran n has not
   * connected to n's hold yet, that is n and what is below it; afterwards the
   * release may go on to any batch above.
   */
  ghost predicate Touched(g: Graph, s: State, t: State, n: nat)
    requires Object(g, n)
  {
    && Shape(g, s) && Shape(g, t)
    && if s.connected[n] then Frame(g, s, t, 0, |g.kind|) else Frame(g, s, t, n, g.limit[n])
  }

  /** Running task c of p, connecting p to it, and going on. */
  lemma TouchedByProcess(g: Graph, s: State, t: State, u: State, w: State, p: nat, c: nat)
    requires Shape(g, s) && Shape(g, t) && Object(g, p) && Object(g, c) && p < c && g.limit[c] <= g.limit[p]
    requires Frame(g, s, t, c, g.limit[c])
    requires |u.acquisitions| == |u.connected| == |g.kind|
    requires u == t.(acquisitions := u.acquisitions, connected := u.connected)
    requires forall n :: 0 <= n < |g.kind| && n != p ==> u.acquisitions[n] == t.acquisitions[n]
    requires forall n :: 0 <= n < |g.kind| && n != c ==> u.connected[n] == t.connected[n]
    requires w == u || Touched(g, u, w, p)
    ensures Touched(g, s, w, p)
  {
    hide TasksOk;
    assert Shape(g, u);
  }

  // ---- release() ------------------------------------------------------------------

  /** release() up to the callback: the count goes down, and at zero 'release' is emitted and disconnected. */
  function AfterRelease(s: State, h: nat): State
    requires h < |s.acquisitions| && h < |s.connected|
  {
    var last := s.acquisitions[h] == 1;
    s.(acquisitions := s.acquisitions[h := s.acquisitions[h] - 1],
       connected := if last then s.connected[h := false] else s.connected,
       log := if last then s.log + [Released(h)] else s.log)
  }

  lemma ReleaseShape(g: Graph, s: State, h: nat)
    requires Shape(g, s) && Object(g, h)
    ensures Shape(g, AfterRelease(s, h))
  {
  }

  lemma ReleaseObjects(g: Graph, s: State, h: nat)
    requires Shape(g, s) && Object(g, h) && !g.kind[h].NoHold?
    requires forall n :: 0 <= n < |g.kind| ==> ObjectOk(g, s, n)
    requires g.kind[h].IsBatch() ==> h !in s.unstarted
    ensures var t := AfterRelease(s, h);
            Shape(g, t) && forall n :: 0 <= n < |g.kind| ==> ObjectOk(g, t, n)
  {
    var t := AfterRelease(s, h);
    ReleaseShape(g, s, h);
    forall n | 0 <= n < |g.kind| ensures ObjectOk(g, t, n) { assert ObjectOk(g, s, n); }
  }

  lemma ReleaseHistory(g: Graph, s: State, h: nat)
    requires Shape(g, s) && Object(g, h) && ObjectOk(g, s, h) && !g.kind[h].NoHold?
    requires Once(s.log) && StartsInOrder(g, s)
    ensures var t := AfterRelease(s, h);
            Shape(g, t) && Once(t.log) && StartsInOrder(g, t)
  {
    hide StartsInOrder;
    var t := AfterRelease(s, h);
    ReleaseShape(g, s, h);
    if s.acquisitions[h] == 1 {
      OnceSnoc(s.log, Released(h));
      OrderSnoc(g, s, t, Released(h));
    } else {
      OrderSame(g, s, t);
    }
  }

  /** A batch whose hold had one acquisition too many is settled afterwards. */
  lemma ReleaseSelf(g: Graph, s: State, h: nat)
    requires Shape(g, s) && Object(g, h) && RanAll(g, s, h, 1)
    ensures var t := AfterRelease(s, h);
            Shape(g, t) && RanAll(g, t, h, 0)
  {
    var t := AfterRelease(s, h);
    ReleaseShape(g, s, h);
    assert TasksOk(g, s.tasks[h], h);
    CountHeldSame(g, s, t, s.tasks[h][..|s.tasks[h]|]);
  }

  lemma ReleaseBystander(g: Graph, s: State, h: nat, n: nat)
    requires Shape(g, s) && Object(g, h) && Object(g, n) && Settled(g, s, n) && n != h
    requires h !in s.tasks[n] || s.acquisitions[h] != 1
    ensures var t := AfterRelease(s, h);
            Shape(g, t) && Settled(g, t, n)
  {
    hide Settled;
    hide TasksOk;
    ReleaseShape(g, s, h);
    SettledFrame(g, s, AfterRelease(s, h), n);
  }

  /** A release that leaves the hold acquired, or that comes after the last one. */
  lemma QuietRelease(g: Graph, s: State, h: nat, open: set<nat>)
    requires Object(g, h) && !g.kind[h].NoHold? && h !in open
    requires Inv(g, s, if g.kind[h].IsBatch() then open + {h} else open)
    requires g.kind[h].IsBatch() ==> h !in s.unstarted && RanAll(g, s, h, 1)
    requires s.acquisitions[h] != 1
    ensures Inv(g, AfterRelease(s, h), open)
  {
    hide ObjectOk;
    hide RanAll;
    hide WaitsAt;
    hide Once;
    hide StartsInOrder;
    hide TasksOk;
    var t := AfterRelease(s, h);
    ReleaseObjects(g, s, h);
    ReleaseHistory(g, s, h);
    if g.kind[h].IsBatch() { ReleaseSelf(g, s, h); }
    forall n | 0 <= n < |g.kind| && g.kind[n].IsBatch() && n !in t.unstarted && n !in open && n != h
      ensures Settled(g, t, n)
    {
      ReleaseBystander(g, s, h, n);
    }
  }

  /** The last release of a hold nobody is connected to. */
  lemma SilentRelease(g: Graph, s: State, h: nat, open: set<nat>)
    requires Object(g, h) && !g.kind[h].NoHold? && h !in open
    requires Inv(g, s, if g.kind[h].IsBatch() then open + {h} else open)
    requires g.kind[h].IsBatch() ==> h !in s.unstarted && RanAll(g, s, h, 1)
    requires s.acquisitions[h] == 1 && !s.connected[h]
    ensures Inv(g, AfterRelease(s, h), open)
  {
    hide ObjectOk;
    hide RanAll;
    hide WaitsAt;
    hide Once;
    hide StartsInOrder;
    hide TasksOk;
    var t := AfterRelease(s, h);
    ReleaseObjects(g, s, h);
    ReleaseHistory(g, s, h);
    if g.kind[h].IsBatch() { ReleaseSelf(g, s, h); }
    forall n | 0 <= n < |g.kind| && g.kind[n].IsBatch() && n !in t.unstarted && n !in open && n != h
      ensures Settled(g, t, n)
    {
      if h in s.tasks[n] {
        UnconnectedIsUnstarted(g, s, n, h);
        UnstartedTaskUnseen(g, s, n, h);
      } else {
        ReleaseBystander(g, s, h, n);
      }
    }
  }

  /** In a settled batch, a held task without connection has not been run. */
  lemma UnconnectedIsUnstarted(g: Graph, s: State, n: nat, h: nat)
    requires Shape(g, s) && Object(g, n) && Settled(g, s, n) && h in s.tasks[n] && Object(g, h)
    requires !s.connected[h] && Held(g, s, h)
    ensures h in s.unstarted
  {
    var i :| 0 <= i < |s.tasks[n]| && s.tasks[n][i] == h;
  }

  /** Batches do not look at the holds of tasks they have not run. */
  lemma UnstartedTaskUnseen(g: Graph, s: State, n: nat, h: nat)
    requires Shape(g, s) && Object(g, n) && Settled(g, s, n)
    requires Object(g, h) && h in s.unstarted && h != n && !s.connected[h]
    ensures var t := AfterRelease(s, h);
            Shape(g, t) && Settled(g, t, n)
  {
    var t := AfterRelease(s, h);
    ReleaseShape(g, s, h);
    assert TasksOk(g, s.tasks[n], n);
    if WaitsAt(g, s, n) {
      assert WaitsAt(g, t, n);
    } else {
      CountHeldSame(g, s, t, s.tasks[n][..|s.tasks[n]|]);
      assert RanAll(g, t, n, 0);
    }
  }

  lemma ConnectedOwner(g: Graph, s: State, h: nat)
    requires Shape(g, s) && Object(g, h) && ObjectOk(g, s, h) && s.connected[h]
    ensures Object(g, g.owner[h]) && g.owner[h] < h && g.kind[g.owner[h]].IsBatch() && g.owner[h] !in s.unstarted
    ensures h in s.tasks[g.owner[h]] && h !in s.unstarted && Held(g, s, h)
    ensures forall n :: 0 <= n < |g.kind| && h in s.tasks[n] ==> n == g.owner[h]
  {
    assert TasksOk(g, s.tasks[g.owner[h]], g.owner[h]);
    forall n | 0 <= n < |g.kind| && h in s.tasks[n] ensures n == g.owner[h] { assert TasksOk(g, s.tasks[n], n); }
  }

  /**
   * The last release of a hold its batch waits for: the batch is left with
   * one acquisition too many, or must move on.
   */
  lemma LoudRelease(g: Graph, s: State, h: nat)
    requires Object(g, h) && !g.kind[h].NoHold?
    requires Inv(g, s, if g.kind[h].IsBatch() then {h} else {})
    requires g.kind[h].IsBatch() ==> h !in s.unstarted && RanAll(g, s, h, 1)
    requires s.acquisitions[h] == 1 && s.connected[h]
    ensures var p := g.owner[h];
            var t := AfterRelease(s, h);
            && Object(g, p) && p < h && g.kind[p].IsBatch() && p !in t.unstarted
            && Inv(g, t, {p})
            && (g.kind[p].Concurrent? ==> RanAll(g, t, p, 1))
            && (g.kind[p].Consecutive? ==> AboutToMove(g, t, p))
  {
    hide ObjectOk;
    hide RanAll;
    hide WaitsAt;
    hide AboutToMove;
    hide Once;
    hide StartsInOrder;
    hide TasksOk;
    var p := g.owner[h];
    var t := AfterRelease(s, h);
    assert ObjectOk(g, s, h);
    ConnectedOwner(g, s, h);
    ReleaseObjects(g, s, h);
    ReleaseHistory(g, s, h);
    if g.kind[h].IsBatch() { ReleaseSelf(g, s, h); }
    forall n | 0 <= n < |g.kind| && g.kind[n].IsBatch() && n !in t.unstarted && n != h && n != p
      ensures Settled(g, t, n)
    {
      ReleaseBystander(g, s, h, n);
    }
    if g.kind[p].Concurrent? {
      ConcurrentOwner(g, s, h);
    } else {
      ConsecutiveOwner(g, s, h);
    }
  }

  lemma ConcurrentOwner(g: Graph, s: State, h: nat)
    requires Shape(g, s) && Object(g, h) && Object(g, g.owner[h]) && Settled(g, s, g.owner[h])
    requires h in s.tasks[g.owner[h]] && g.owner[h] != h && Held(g, s, h) && s.acquisitions[h] == 1
    requires g.kind[g.owner[h]].Concurrent? && s.connected[h]
    ensures Shape(g, AfterRelease(s, h)) && RanAll(g, AfterRelease(s, h), g.owner[h], 1)
  {
    var t := AfterRelease(s, h);
    var p := g.owner[h];
    var ts := s.tasks[p];
    ReleaseShape(g, s, h);
    assert TasksOk(g, ts, p);
    var j :| 0 <= j < |ts| && ts[j] == h;
    forall i | 0 <= i < |ts| && i != j ensures ts[i] != h {
      TasksDistinct(g, s, p, if i < j then i else j, if i < j then j else i);
    }
    assert ts[..|ts|] == ts;
    CountHeldDrops(g, s, t, ts, j);
    hide TasksOk;
    assert Passed(g, t, p, |ts|);
  }

  lemma OnlyAt(g: Graph, s: State, n: nat, j: nat)
    requires Shape(g, s) && Object(g, n) && j < |s.tasks[n]|
    ensures n < s.tasks[n][j] < |g.kind|
    ensures forall i :: 0 <= i < |s.tasks[n]| && i != j ==> s.tasks[n][i] != s.tasks[n][j]
    ensures forall i :: 0 <= i < |s.tasks[n]| ==> n < s.tasks[n][i] < |g.kind| && g.owner[s.tasks[n][i]] == n
    ensures g.limit[s.tasks[n][j]] <= g.limit[n]
    ensures forall i :: 0 <= i < |s.tasks[n]| && i != j ==>
              !(s.tasks[n][j] <= s.tasks[n][i] < g.limit[s.tasks[n][j]])
  {
    assert TasksOk(g, s.tasks[n], n);
    var ts := s.tasks[n];
    forall i | 0 <= i < |ts| && i != j ensures !(ts[j] <= ts[i] < g.limit[ts[j]]) {
      if i < j { assert ts[i] < g.limit[ts[i]] <= ts[j]; } else { assert g.limit[ts[j]] <= ts[i]; }
    }
  }

  lemma ConsecutiveOwner(g: Graph, s: State, h: nat)
    requires Shape(g, s) && Object(g, h) && Object(g, g.owner[h]) && Settled(g, s, g.owner[h])
    requires h in s.tasks[g.owner[h]] && g.owner[h] != h && Held(g, s, h) && s.acquisitions[h] == 1
    requires g.kind[g.owner[h]].Consecutive? && s.connected[h] && h !in s.unstarted
    ensures Shape(g, AfterRelease(s, h)) && AboutToMove(g, AfterRelease(s, h), g.owner[h])
  {
    hide TasksOk;
    var t := AfterRelease(s, h);
    var p := g.owner[h];
    var ts := s.tasks[p];
    ReleaseShape(g, s, h);
    var j :| 0 <= j < |ts| && ts[j] == h;
    OnlyAt(g, s, p, j);
    WaitsForHeld(g, s, p, j);
    assert Passed(g, t, p, j + 1);
    CountHeldNone(g, t, ts[..j + 1]);
  }

  lemma WaitsForHeld(g: Graph, s: State, p: nat, j: nat)
    requires Shape(g, s) && Object(g, p) && Settled(g, s, p) && g.kind[p].Consecutive?
    requires j < |s.tasks[p]| && s.tasks[p][j] !in s.unstarted && Object(g, s.tasks[p][j]) && Held(g, s, s.tasks[p][j])
    ensures WaitsAt(g, s, p) && j == s.index[p]
  {
  }

  // ---- nextTask() -------------------------------------------------------------------

  /** nextTask() has advanced the index: the batch has run everything, or goes on with process(). */
  lemma Move(g: Graph, s: State, p: nat, open: set<nat>)
    requires Inv(g, s, open + {p}) && Object(g, p) && p !in s.unstarted && AboutToMove(g, s, p)
    ensures var t := s.(index := s.index[p := s.index[p] + 1]);
            && Inv(g, t, open + {p})
            && (if t.index[p] >= |t.tasks[p]| then RanAll(g, t, p, 1) else AboutToProcess(g, t, p))
  {
    var t := s.(index := s.index[p := s.index[p] + 1]);
    MoveOthers(g, s, p, open);
    MoveSelf(g, s, p);
  }

  lemma MoveSelf(g: Graph, s: State, p: nat)
    requires Shape(g, s) && Object(g, p) && AboutToMove(g, s, p)
    ensures var t := s.(index := s.index[p := s.index[p] + 1]);
            && Shape(g, t)
            && (if t.index[p] >= |t.tasks[p]| then RanAll(g, t, p, 1) else AboutToProcess(g, t, p))
  {
    hide TasksOk;
    var t := s.(index := s.index[p := s.index[p] + 1]);
    var k := if s.index[p] < |s.tasks[p]| then s.index[p] + 1 else 0;
    assert Shape(g, t);
    assert Passed(g, t, p, k);
    CountSameInts(g, s, t, p, k);
  }

  /** Counting looks at the holds only. */
  lemma CountSameInts(g: Graph, s: State, t: State, n: nat, k: nat)
    requires Shape(g, s) && Shape(g, t) && Object(g, n) && t.tasks[n] == s.tasks[n] && k <= |s.tasks[n]|
    requires t.acquisitions == s.acquisitions
    ensures Counted(g, s, n, k, 1) ==> Counted(g, t, n, k, 1)
  {
    assert TasksOk(g, s.tasks[n], n);
    CountHeldSame(g, s, t, s.tasks[n][..k]);
  }

  lemma MoveOthers(g: Graph, s: State, p: nat, open: set<nat>)
    requires Inv(g, s, open + {p}) && Object(g, p) && p !in s.unstarted && 0 <= s.index[p]
    ensures Inv(g, s.(index := s.index[p := s.index[p] + 1]), open + {p})
  {
    hide TasksOk;
    hide Settled;
    var t := s.(index := s.index[p := s.index[p] + 1]);
    assert Shape(g, t);
    OrderSame(g, s, t);
    forall n | 0 <= n < |g.kind| ensures ObjectOk(g, t, n) { assert ObjectOk(g, s, n); }
    forall n | 0 <= n < |g.kind| && g.kind[n].IsBatch() && n !in t.unstarted && n !in open + {p}
      ensures Settled(g, t, n)
    {
      SettledFrame(g, s, t, n);
    }
  }

  // ---- process() --------------------------------------------------------------------

  /** Task number index[n] has been run; its hold has not been looked at yet. */
  ghost predicate JustRan(g: Graph, s: State, n: nat)
    requires Shape(g, s) && Object(g, n)
  {
    var k := s.index[n];
    var ts := s.tasks[n];
    && 0 <= k < |ts|
    && (forall i :: 0 <= i < k ==> ts[i] !in s.unstarted && s.connected[ts[i]] == Held(g, s, ts[i]))
    && (g.kind[n].Consecutive? ==> forall i :: 0 <= i < k ==> !Held(g, s, ts[i]))
    && ts[k] !in s.unstarted && !s.connected[ts[k]]
    && (forall i :: k < i < |ts| ==> ts[i] in s.unstarted)
    && Counted(g, s, n, k, 1)
  }

  /** Running a task touches nothing of its batch and of the batch's other tasks. */
  lemma AfterRun(g: Graph, s: State, t: State, p: nat)
    requires Shape(g, s) && Shape(g, t) && Object(g, p) && AboutToProcess(g, s, p) && s.index[p] < |s.tasks[p]|
    requires Object(g, s.tasks[p][s.index[p]])
    requires var c := s.tasks[p][s.index[p]]; Frame(g, s, t, c, g.limit[c]) && c !in t.unstarted && !t.connected[c]
    ensures t.index[p] == s.index[p] && JustRan(g, t, p)
  {
    hide TasksOk;
    var k := s.index[p];
    var ts := s.tasks[p];
    OnlyAt(g, s, p, k);
    CountHeldSame(g, s, t, ts[..k]);
  }

  lemma NothingToRun(g: Graph, s: State, p: nat)
    requires Shape(g, s) && Object(g, p) && AboutToProcess(g, s, p) && s.index[p] >= |s.tasks[p]|
    ensures AboutToMove(g, s, p)
  {
  }

  /** The task's hold is not acquired: go on. */
  lemma NotHeld(g: Graph, s: State, p: nat)
    requires Shape(g, s) && Object(g, p) && JustRan(g, s, p)
    requires var c := s.tasks[p][s.index[p]]; Object(g, c) && !Held(g, s, c)
    ensures AboutToMove(g, s, p)
  {
    hide TasksOk;
    var k := s.index[p];
    var ts := s.tasks[p];
    OnlyAt(g, s, p, k);
    assert ts[..k + 1][..k] == ts[..k];
  }

  /** acquireUntilAfter(): a concurrent batch takes one more acquisition and connects. */
  lemma AcquireAndConnect(g: Graph, s: State, p: nat, open: set<nat>)
    requires Inv(g, s, open + {p}) && Object(g, p) && p !in s.unstarted && JustRan(g, s, p) && g.kind[p].Concurrent?
    requires var c := s.tasks[p][s.index[p]]; Object(g, c) && Held(g, s, c)
    ensures var c := s.tasks[p][s.index[p]];
            var t := s.(acquisitions := s.acquisitions[p := s.acquisitions[p] + 1],
                        connected := s.connected[c := true]);
            Inv(g, t, open + {p}) && AboutToMove(g, t, p)
  {
    hide TasksOk;
    var k := s.index[p];
    var c := s.tasks[p][k];
    OnlyAt(g, s, p, k);
    var t := s.(acquisitions := s.acquisitions[p := s.acquisitions[p] + 1], connected := s.connected[c := true]);
    ConnectOthers(g, s, t, p, c, open);
    ConnectSelf(g, s, t, p);
  }

  lemma ConnectSelf(g: Graph, s: State, t: State, p: nat)
    requires Shape(g, s) && Shape(g, t) && Object(g, p) && JustRan(g, s, p) && g.kind[p].Concurrent?
    requires var c := s.tasks[p][s.index[p]];
             && Object(g, c) && Held(g, s, c)
             && t == s.(acquisitions := s.acquisitions[p := s.acquisitions[p] + 1], connected := s.connected[c := true])
    ensures AboutToMove(g, t, p)
  {
    hide TasksOk;
    var k := s.index[p];
    var ts := s.tasks[p];
    OnlyAt(g, s, p, k);
    assert ts[..k + 1][..k] == ts[..k];
    CountHeldSame(g, s, t, ts[..k]);
  }

  /** Batches other than the owner p do not notice that p connects to its task c. */
  lemma ConnectOthers(g: Graph, s: State, t: State, p: nat, c: nat, open: set<nat>)
    requires Inv(g, s, open + {p}) && Object(g, p) && p !in s.unstarted && Object(g, c) && g.owner[c] == p && p < c
    requires c !in s.unstarted && Held(g, s, c)
    requires g.kind[p].IsBatch() && s.acquisitions[p] > 0
    requires t == s.(acquisitions := t.acquisitions, connected := s.connected[c := true])
    requires t.acquisitions == s.acquisitions || t.acquisitions == s.acquisitions[p := s.acquisitions[p] + 1]
    ensures Inv(g, t, open + {p})
  {
    hide Settled;
    hide StartsInOrder;
    assert Shape(g, t);
    OrderSame(g, s, t);
    forall n | 0 <= n < |g.kind| ensures ObjectOk(g, t, n) { assert ObjectOk(g, s, n); }
    forall n | 0 <= n < |g.kind| && g.kind[n].IsBatch() && n !in t.unstarted && n !in open + {p}
      ensures Settled(g, t, n)
    {
      assert TasksOk(g, s.tasks[n], n);
      SettledFrame(g, s, t, n);
    }
  }

  /** A consecutive batch connects to the task it has to wait for. */
  lemma ConnectAndWait(g: Graph, s: State, p: nat, open: set<nat>)
    requires Inv(g, s, open + {p}) && Object(g, p) && p !in s.unstarted && JustRan(g, s, p) && g.kind[p].Consecutive?
    requires p !in open
    requires var c := s.tasks[p][s.index[p]]; Object(g, c) && Held(g, s, c)
    ensures var c := s.tasks[p][s.index[p]];
            var t := s.(connected := s.connected[c := true]);
            Inv(g, t, open) && WaitsAt(g, t, p)
  {
    hide TasksOk;
    hide ObjectOk;
    hide StartsInOrder;
    var k := s.index[p];
    var c := s.tasks[p][k];
    OnlyAt(g, s, p, k);
    CountHeldNone(g, s, s.tasks[p][..k]);
    var t := s.(connected := s.connected[c := true]);
    ConnectOthers(g, s, t, p, c, open);
    assert WaitsAt(g, t, p);
  }

  // ---- run() ------------------------------------------------------------------------

  function AfterStart(g: Graph, s: State, n: nat): State
    requires n < |s.index| && n < |g.kind|
  {
    s.(unstarted := s.unstarted - {n}, log := s.log + [Started(n)],
       index := if g.kind[n].IsBatch() then s.index[n := 0] else s.index)
  }

  /** The object is a root, or the task its owner is about to process. */
  ghost predicate MayStart(g: Graph, s: State, n: nat, open: set<nat>)
    requires Shape(g, s) && Object(g, n)
  {
    || (g.owner[n] == n && forall m :: 0 <= m < |g.kind| ==> n !in s.tasks[m])
    || var p := g.owner[n];
       && p < n && p in open && p !in s.unstarted && AboutToProcess(g, s, p)
       && s.index[p] < |s.tasks[p]| && s.tasks[p][s.index[p]] == n
  }

  lemma StartShape(g: Graph, s: State, n: nat)
    requires Shape(g, s) && Object(g, n)
    ensures Shape(g, AfterStart(g, s, n))
  {
  }

  lemma StartHistory(g: Graph, s: State, n: nat, open: set<nat>)
    requires Inv(g, s, open) && Object(g, n) && n in s.unstarted && MayStart(g, s, n, open)
    ensures var t := AfterStart(g, s, n);
            Shape(g, t) && Once(t.log) && StartsInOrder(g, t)
  {
    hide Settled;
    hide StartsInOrder;
    var t := AfterStart(g, s, n);
    StartShape(g, s, n);
    assert ObjectOk(g, s, n);
    OnceSnoc(s.log, Started(n));
    forall m, i, j | 0 <= m < |g.kind| && g.kind[m].Consecutive? && 0 <= i < j < |s.tasks[m]|
                     && Started(n) == Started(s.tasks[m][j])
      ensures FinishedIn(g, s.tasks[m][i], s.log)
    {
      OnlyAt(g, s, m, j);
      assert j == s.index[m];
      assert ObjectOk(g, s, s.tasks[m][i]);
    }
    OrderSnoc(g, s, t, Started(n));
  }

  lemma StartObjects(g: Graph, s: State, n: nat, open: set<nat>)
    requires Inv(g, s, open) && Object(g, n) && n in s.unstarted && MayStart(g, s, n, open)
    ensures var t := AfterStart(g, s, n);
            Shape(g, t) && forall m :: 0 <= m < |g.kind| ==> ObjectOk(g, t, m)
  {
    hide Settled;
    hide StartsInOrder;
    hide Once;
    hide TasksOk;
    var t := AfterStart(g, s, n);
    StartShape(g, s, n);
    forall m | 0 <= m < |g.kind| ensures ObjectOk(g, t, m) {
      assert ObjectOk(g, s, m);
      if n in s.tasks[m] {
        var j :| 0 <= j < |s.tasks[m]| && s.tasks[m][j] == n;
        OnlyAt(g, s, m, j);
      }
      OwnTasksAbove(g, s, m);
    }
  }

  lemma OwnTasksAbove(g: Graph, s: State, m: nat)
    requires Shape(g, s) && Object(g, m)
    ensures forall i :: 0 <= i < |s.tasks[m]| ==> m < s.tasks[m][i] < |g.kind| && g.owner[s.tasks[m][i]] == m
    ensures !g.kind[m].IsBatch() ==> s.tasks[m] == []
  {
    assert TasksOk(g, s.tasks[m], m);
  }

  lemma StartSettled(g: Graph, s: State, n: nat, open: set<nat>)
    requires Inv(g, s, open) && Object(g, n) && n in s.unstarted && MayStart(g, s, n, open)
    ensures var t := AfterStart(g, s, n);
            && Shape(g, t)
            && forall m :: 0 <= m < |g.kind| && g.kind[m].IsBatch() && m !in s.unstarted && m !in open ==>
                 Settled(g, t, m)
  {
    hide Settled;
    hide StartsInOrder;
    hide Once;
    hide ObjectOk;
    var t := AfterStart(g, s, n);
    StartShape(g, s, n);
    forall m | 0 <= m < |g.kind| && g.kind[m].IsBatch() && m !in s.unstarted && m !in open ensures Settled(g, t, m) {
      OwnTasksAbove(g, s, m);
      SettledFrame(g, s, t, m);
    }
  }

  lemma StartSelf(g: Graph, s: State, n: nat)
    requires Shape(g, s) && Object(g, n) && ObjectOk(g, s, n) && n in s.unstarted && g.kind[n].IsBatch()
    ensures var t := AfterStart(g, s, n);
            Shape(g, t) && AboutToProcess(g, t, n)
  {
    StartShape(g, s, n);
    OwnTasksAbove(g, s, n);
    hide TasksOk;
    var t := AfterStart(g, s, n);
    assert t.tasks[n][..0] == [];
    assert Passed(g, t, n, 0);
  }

  /** run() and _start() up to the call of process(). */
  lemma Start(g: Graph, s: State, n: nat, open: set<nat>)
    requires Inv(g, s, open) && Object(g, n) && n in s.unstarted && MayStart(g, s, n, open)
    ensures var t := AfterStart(g, s, n);
            && Inv(g, t, if g.kind[n].IsBatch() then open + {n} else open)
            && (g.kind[n].IsBatch() ==> AboutToProcess(g, t, n))
  {
    hide Settled;
    hide StartsInOrder;
    hide Once;
    hide ObjectOk;
    hide TasksOk;
    hide MayStart;
    hide AboutToProcess;
    StartHistory(g, s, n, open);
    StartObjects(g, s, n, open);
    StartSettled(g, s, n, open);
    if g.kind[n].IsBatch() { StartSelf(g, s, n); }
  }

  // ---- The surroundings -------------------------------------------------------------

  /**
   * From s to t only x's hold was released from outside, and no root but x
   * was run.
   */
  ghost predicate OutsideKept(g: Graph, s: State, t: State, x: nat) {
    && |s.acquisitions| == |t.acquisitions| == |g.kind| == |g.owner|
    && (forall n :: 0 <= n < |g.kind| && g.kind[n].LeafHold? && n != x ==> t.acquisitions[n] == s.acquisitions[n])
    && (forall n :: 0 <= n < |g.kind| && g.owner[n] == n && n != x ==> (n in s.unstarted ==> n in t.unstarted))
  }

  /** A call on y, which is a started batch or a task of one, comes after. */
  lemma KeptVia(g: Graph, s: State, t: State, u: State, x: nat, y: nat)
    requires OutsideKept(g, s, t, x) && OutsideKept(g, t, u, y) && Object(g, y)
    requires g.kind[y].LeafHold? ==> u.acquisitions[y] == t.acquisitions[y]
    requires g.owner[y] != y || y !in t.unstarted
    ensures OutsideKept(g, s, u, x)
    ensures forall n :: 0 <= n < |g.kind| && g.kind[n].LeafHold? ==> u.acquisitions[n] == t.acquisitions[n]
  {
  }

  lemma ConnectedStarted(g: Graph, s: State, h: nat, open: set<nat>)
    requires Inv(g, s, open) && Object(g, h)
    ensures s.connected[h] ==> h !in s.unstarted
  {
    assert ObjectOk(g, s, h);
  }

  lemma KeptRelease(g: Graph, s: State, h: nat)
    requires Shape(g, s) && Object(g, h)
    ensures OutsideKept(g, s, AfterRelease(s, h), h)
  {
  }

  /** Steps that release no outside hold and run no root. */
  lemma KeptInside(g: Graph, s: State, t: State, x: nat)
    requires Shape(g, s) && |t.acquisitions| == |g.kind| && t.unstarted == s.unstarted
    requires forall n :: 0 <= n < |g.kind| && g.kind[n].LeafHold? ==> t.acquisitions[n] == s.acquisitions[n]
    ensures OutsideKept(g, s, t, x)
  {
  }

  lemma KeptStart(g: Graph, s: State, t: State, n: nat)
    requires Shape(g, s) && |t.acquisitions| == |g.kind| && t.unstarted == s.unstarted - {n}
    requires forall k :: 0 <= k < |g.kind| && g.kind[k].LeafHold? ==> t.acquisitions[k] == s.acquisitions[k]
    ensures OutsideKept(g, s, t, n)
  {
  }

  /** Running task c of p, looking at its hold, and going on. */
  lemma KeptByProcess(g: Graph, s: State, t: State, u: State, w: State, p: nat, c: nat)
    requires Object(g, p) && g.kind[p].IsBatch() && p !in s.unstarted
    requires Object(g, c) && |g.owner| == |g.kind| && g.owner[c] != c
    requires OutsideKept(g, s, t, c) && (g.kind[c].LeafHold? ==> t.acquisitions[c] == s.acquisitions[c])
    requires |u.acquisitions| == |g.kind| && u.unstarted == t.unstarted
    requires forall n :: 0 <= n < |g.kind| && n != p ==> u.acquisitions[n] == t.acquisitions[n]
    requires w == u || OutsideKept(g, u, w, p)
    ensures OutsideKept(g, s, w, p)
  {
  }

  function Below(n: nat): (r: set<nat>)
    ensures forall k: nat :: k in r <==> k < n
  {
    if n == 0 then {} else Below(n - 1) + {n - 1}
  }

  function Fresh(g: Graph, tasks: seq<seq<nat>>): State {
    var n := |g.kind|;
    State(tasks, seq(n, _ => -1), seq(n, _ => 1), seq(n, _ => false), Below(n), [])
  }

  lemma FreshInv(g: Graph, tasks: seq<seq<nat>>)
    requires Shape(g, Fresh(g, tasks))
    ensures Inv(g, Fresh(g, tasks), {})
  {
    forall n | 0 <= n < |g.kind| ensures ObjectOk(g, Fresh(g, tasks), n) { OwnTasksAbove(g, Fresh(g, tasks), n); }
  }

  lemma InvShape(g: Graph, s: State, open: set<nat>)
    requires Inv(g, s, open)
    ensures Shape(g, s)
  {
  }

  /** The object belongs to no batch. */
  ghost predicate IsRoot(g: Graph, s: State, n: nat)
    requires Shape(g, s) && Object(g, n)
  {
    g.owner[n] == n && forall m :: 0 <= m < |g.kind| ==> n !in s.tasks[m]
  }

  lemma RootMayStart(g: Graph, s: State, n: nat)
    requires Shape(g, s) && Object(g, n) && IsRoot(g, s, n)
    ensures MayStart(g, s, n, {})
  {
  }

  lemma RootCheck(g: Graph, s: State, n: nat)
    requires Inv(g, s, {}) && Object(g, n) && g.kind[n].IsBatch() && g.owner[n] == n && s.index[n] < 0
    ensures n in s.unstarted && IsRoot(g, s, n)
  {
    assert ObjectOk(g, s, n);
    forall m | 0 <= m < |g.kind| ensures n !in s.tasks[m] { OwnTasksAbove(g, s, m); }
  }

  /** One more acquisition of a hold that is acquired makes no difference to anyone. */
  lemma AcquireMore(g: Graph, s: State, h: nat)
    requires Inv(g, s, {}) && Object(g, h) && g.kind[h].LeafHold? && s.acquisitions[h] > 0
    ensures Inv(g, s.(acquisitions := s.acquisitions[h := s.acquisitions[h] + 1]), {})
  {
    hide Settled;
    hide TasksOk;
    var t := s.(acquisitions := s.acquisitions[h := s.acquisitions[h] + 1]);
    assert Shape(g, t);
    OrderSame(g, s, t);
    forall n | 0 <= n < |g.kind| ensures ObjectOk(g, t, n) { assert ObjectOk(g, s, n); }
    forall n | 0 <= n < |g.kind| && g.kind[n].IsBatch() && n !in t.unstarted ensures Settled(g, t, n) {
      SettledFrame(g, s, t, n);
    }
  }

  function AfterCancel(s: State, b: nat): State
    requires b < |s.tasks| && b < |s.index|
  {
    var k := s.index[b] + 1;
    s.(tasks := s.tasks[b := if 0 <= k < |s.tasks[b]| then s.tasks[b][..k] else s.tasks[b]])
  }

  /** A settled batch has run exactly the tasks up to its index. */
  lemma RunSoFar(g: Graph, s: State, b: nat)
    requires Shape(g, s) && Object(g, b) && Settled(g, s, b)
    ensures s.index[b] >= 0
    ensures forall i :: 0 <= i < |s.tasks[b]| ==> (s.tasks[b][i] in s.unstarted <==> i > s.index[b])
    ensures forall i :: 0 <= i < s.index[b] && i < |s.tasks[b]| && g.kind[b].Consecutive? ==>
              Object(g, s.tasks[b][i]) && !Held(g, s, s.tasks[b][i])
  {
    OwnTasksAbove(g, s, b);
  }

  lemma CancelShape(g: Graph, s: State, b: nat)
    requires Shape(g, s) && Object(g, b) && g.kind[b].IsBatch() && s.index[b] >= -1
    ensures Shape(g, AfterCancel(s, b))
  {
    assert TasksOk(g, s.tasks[b], b);
    var t := AfterCancel(s, b);
    forall n | 0 <= n < |g.kind| ensures TasksOk(g, t.tasks[n], n) { assert TasksOk(g, s.tasks[n], n); }
  }

  lemma CancelWaiting(g: Graph, s: State, b: nat)
    requires Shape(g, s) && Object(g, b) && g.kind[b].IsBatch() && WaitsAt(g, s, b)
    ensures Shape(g, AfterCancel(s, b)) && WaitsAt(g, AfterCancel(s, b), b)
  {
    hide TasksOk;
    CancelShape(g, s, b);
    OwnTasksAbove(g, s, b);
  }

  lemma CancelSelf(g: Graph, s: State, b: nat)
    requires Shape(g, s) && Object(g, b) && g.kind[b].IsBatch() && Settled(g, s, b) && s.index[b] >= 0
    ensures Shape(g, AfterCancel(s, b)) && Settled(g, AfterCancel(s, b), b)
  {
    hide TasksOk;
    hide WaitsAt;
    CancelShape(g, s, b);
    if WaitsAt(g, s, b) {
      CancelWaiting(g, s, b);
    } else {
      assert AfterCancel(s, b).tasks == s.tasks;
    }
  }

  lemma CancelObjects(g: Graph, s: State, b: nat)
    requires Inv(g, s, {}) && Object(g, b) && g.kind[b].IsBatch() && s.index[b] >= -1
    ensures Shape(g, AfterCancel(s, b))
    ensures forall n :: 0 <= n < |g.kind| ==> ObjectOk(g, AfterCancel(s, b), n)
  {
    hide WaitsAt;
    hide RanAll;
    hide TasksOk;
    hide StartsInOrder;
    CancelShape(g, s, b);
    var t := AfterCancel(s, b);
    assert ObjectOk(g, s, b);
    if b !in s.unstarted { RunSoFar(g, s, b); }
    forall n | 0 <= n < |g.kind| ensures ObjectOk(g, t, n) {
      assert ObjectOk(g, s, n);
      if n !in s.unstarted && g.owner[n] == b && b != n {
        var i :| 0 <= i < |s.tasks[b]| && s.tasks[b][i] == n;
        assert i < |t.tasks[b]| && t.tasks[b][i] == n;
      }
    }
  }

  lemma IndexStart(g: Graph, s: State, b: nat)
    requires Inv(g, s, {}) && Object(g, b)
    ensures s.index[b] >= -1
  {
    assert ObjectOk(g, s, b);
  }

  /** cancel() between two turns of the main loop keeps everything in order. */
  lemma CancelInv(g: Graph, s: State, b: nat)
    requires Inv(g, s, {}) && Object(g, b) && g.kind[b].IsBatch()
    ensures s.index[b] >= -1
    ensures Inv(g, AfterCancel(s, b), {})
  {
    hide WaitsAt;
    hide RanAll;
    hide TasksOk;
    hide ObjectOk;
    IndexStart(g, s, b);
    CancelObjects(g, s, b);
    var t := AfterCancel(s, b);
    StartedIndex(g, s, b);
    forall n | 0 <= n < |g.kind| && g.kind[n].IsBatch() && n !in t.unstarted ensures Settled(g, t, n) {
      if n == b { CancelSelf(g, s, b); } else { SettledFrame(g, s, t, n); }
    }
    CancelOrder(g, s, b);
  }

  lemma StartedIndex(g: Graph, s: State, b: nat)
    requires Inv(g, s, {}) && Object(g, b) && g.kind[b].IsBatch()
    ensures b !in s.unstarted ==> s.index[b] >= 0
  {
    assert ObjectOk(g, s, b);
  }

  lemma CancelOrder(g: Graph, s: State, b: nat)
    requires Shape(g, s) && Object(g, b) && g.kind[b].IsBatch() && s.index[b] >= -1 && StartsInOrder(g, s)
    ensures Shape(g, AfterCancel(s, b)) && StartsInOrder(g, AfterCancel(s, b))
  {
    CancelShape(g, s, b);
    hide TasksOk;
    var t := AfterCancel(s, b);
    forall k, n, i, j |
      0 <= k < |t.log| && 0 <= n < |g.kind| && g.kind[n].Consecutive? && 0 <= i < j < |t.tasks[n]| &&
      t.log[k] == Started(t.tasks[n][j])
      ensures FinishedIn(g, t.tasks[n][i], t.log[..k])
    {
      assert t.tasks[n][i] == s.tasks[n][i] && t.tasks[n][j] == s.tasks[n][j];
    }
  }
}
