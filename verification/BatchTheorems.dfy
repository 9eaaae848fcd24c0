/**
 * What the invariant of the batches says, in terms that do not mention the
 * counters, indices and connections: which tasks have started and which
 * holds have been released depends only on which holds of the outside world
 * are still acquired.
 */
module BatchTheorems {
  import opened BatchModel
  import opened BatchSteps

  /** A plain task is done at once, an outside hold when released, a batch when all its tasks are done. */
  ghost predicate Done(g: Graph, s: State, n: nat)
    requires Shape(g, s) && Object(g, n)
    decreases g.limit[n] - n
  {
    OwnTasksAbove(g, s, n);
    LimitsBelow(g, s, n);
    match g.kind[n]
    case NoHold => true
    case LeafHold => s.acquisitions[n] <= 0
    case _ => forall i :: 0 <= i < |s.tasks[n]| ==> Done(g, s, s.tasks[n][i])
  }

  lemma LimitsBelow(g: Graph, s: State, n: nat)
    requires Shape(g, s) && Object(g, n)
    ensures forall i :: 0 <= i < |s.tasks[n]| ==> n < s.tasks[n][i] < g.limit[s.tasks[n][i]] <= g.limit[n]
  {
    assert TasksOk(g, s.tasks[n], n);
  }

  /** The hold of something that has been run is acquired exactly as long as that something is not done. */
  lemma {:induction false} HeldUntilDone(g: Graph, s: State, n: nat)
    requires Inv(g, s, {}) && Object(g, n) && n !in s.unstarted
    ensures Held(g, s, n) <==> !Done(g, s, n)
    decreases g.limit[n] - n
  {
    hide ObjectOk;
    hide StartsInOrder;
    hide Once;
    hide TasksOk;
    if g.kind[n].IsBatch() {
      OwnTasksAbove(g, s, n);
      LimitsBelow(g, s, n);
      var ts := s.tasks[n];
      assert Settled(g, s, n);
      forall i | 0 <= i < |ts| && ts[i] !in s.unstarted ensures Held(g, s, ts[i]) <==> !Done(g, s, ts[i]) {
        HeldUntilDone(g, s, ts[i]);
      }
      if WaitsAt(g, s, n) {
        assert !Done(g, s, ts[s.index[n]]);
      } else {
        assert ts[..|ts|] == ts;
        CountHeldNone(g, s, ts);
      }
    }
  }

  /** A batch's hold has emitted 'release' if and only if the batch has been run and all its tasks are done. */
  lemma ReleasedWhenDone(g: Graph, s: State, n: nat)
    requires Inv(g, s, {}) && Object(g, n) && g.kind[n].IsBatch()
    ensures Released(n) in s.log <==> n !in s.unstarted && Done(g, s, n)
  {
    hide Settled;
    hide StartsInOrder;
    hide Once;
    hide TasksOk;
    assert ObjectOk(g, s, n);
    if n !in s.unstarted { HeldUntilDone(g, s, n); }
  }

  /**
   * Which tasks have been run: all tasks of a concurrent batch that has been
   * run, and in a consecutive one those whose predecessors are all done.
   */
  lemma StartedWhenReady(g: Graph, s: State, n: nat, j: nat)
    requires Inv(g, s, {}) && Object(g, n) && j < |s.tasks[n]|
    ensures forall i :: 0 <= i <= j ==> Object(g, s.tasks[n][i])
    ensures s.tasks[n][j] !in s.unstarted <==>
            n !in s.unstarted && (g.kind[n].Consecutive? ==> forall i :: 0 <= i < j ==> Done(g, s, s.tasks[n][i]))
  {
    hide StartsInOrder;
    hide Once;
    hide TasksOk;
    OwnTasksAbove(g, s, n);
    assert ObjectOk(g, s, n);
    hide ObjectOk;
    var ts := s.tasks[n];
    if n !in s.unstarted {
      RunSoFar(g, s, n);
      forall i | 0 <= i <= j && ts[i] !in s.unstarted ensures Held(g, s, ts[i]) <==> !Done(g, s, ts[i]) {
        HeldUntilDone(g, s, ts[i]);
      }
      var k := s.index[n];
      if g.kind[n].Consecutive? && k < j {
        assert WaitsAt(g, s, n);
        assert !Done(g, s, ts[k]);
      } else if g.kind[n].Concurrent? {
        AllRun(g, s, n);
      }
    }
  }

  lemma AllRun(g: Graph, s: State, n: nat)
    requires Shape(g, s) && Object(g, n) && Settled(g, s, n) && g.kind[n].Concurrent?
    ensures forall i :: 0 <= i < |s.tasks[n]| ==> s.tasks[n][i] !in s.unstarted
  {
  }

  /** No task is run twice and no hold emits 'release' twice. */
  lemma ExactlyOnce(g: Graph, s: State, e: Event, i: nat, j: nat)
    requires Inv(g, s, {}) && i < |s.log| && j < |s.log| && s.log[i] == e == s.log[j]
    ensures i == j
  {
    hide StartsInOrder;
    hide Settled;
  }

  /** In the history, task j of a consecutive batch starts after every earlier task was started and released. */
  lemma ConsecutiveOrder(g: Graph, s: State, n: nat, i: nat, j: nat, k: nat)
    requires Inv(g, s, {}) && Object(g, n) && g.kind[n].Consecutive? && i < j < |s.tasks[n]|
    requires k < |s.log| && s.log[k] == Started(s.tasks[n][j])
    ensures exists a :: 0 <= a < k && s.log[a] == Started(s.tasks[n][i])
    ensures Object(g, s.tasks[n][i])
    ensures g.kind[s.tasks[n][i]].NoHold? || exists b :: 0 <= b < k && s.log[b] == Released(s.tasks[n][i])
  {
    hide Settled;
    hide ObjectOk;
    hide Once;
    OwnTasksAbove(g, s, n);
    var c := s.tasks[n][i];
    assert FinishedIn(g, c, s.log[..k]);
    var a :| 0 <= a < k && s.log[..k][a] == Started(c);
    assert s.log[a] == Started(c);
    if !g.kind[c].NoHold? {
      var b :| 0 <= b < k && s.log[..k][b] == Released(c);
      assert s.log[b] == Released(c);
    }
  }

  /** What cancel() cut off a batch is never run: an object with an owner has been run only if it is among its tasks. */
  lemma CancelledNeverRuns(g: Graph, s: State, c: nat)
    requires Inv(g, s, {}) && Object(g, c) && g.owner[c] != c
    ensures c !in s.unstarted ==> Object(g, g.owner[c]) && c in s.tasks[g.owner[c]]
  {
    hide Settled;
    hide StartsInOrder;
    hide Once;
    assert ObjectOk(g, s, c);
  }

  // ---- Independence of the order of releases -------------------------------------

  /** Two situations agree on the outside: tasks, outside holds, and the roots that were run. */
  ghost predicate SameOutside(g: Graph, s: State, t: State)
    requires Shape(g, s) && Shape(g, t)
  {
    && s.tasks == t.tasks
    && (forall n :: 0 <= n < |g.kind| && g.kind[n].LeafHold? ==> Held(g, s, n) == Held(g, t, n))
    && (forall n :: 0 <= n < |g.kind| && g.owner[n] == n ==> (n in s.unstarted <==> n in t.unstarted))
  }

  lemma {:induction false} SameDone(g: Graph, s: State, t: State, n: nat)
    requires Shape(g, s) && Shape(g, t) && SameOutside(g, s, t) && Object(g, n)
    ensures Done(g, s, n) == Done(g, t, n)
    decreases g.limit[n] - n
  {
    hide TasksOk;
    OwnTasksAbove(g, s, n);
    LimitsBelow(g, s, n);
    var ts := s.tasks[n];
    forall i | 0 <= i < |ts| ensures Done(g, s, ts[i]) == Done(g, t, ts[i]) { SameDone(g, s, t, ts[i]); }
  }

  lemma {:induction false} SameStarted(g: Graph, s: State, t: State, n: nat)
    requires Inv(g, s, {}) && Inv(g, t, {}) && SameOutside(g, s, t) && Object(g, n)
    ensures n in s.unstarted <==> n in t.unstarted
    decreases n
  {
    hide Settled;
    hide StartsInOrder;
    hide Once;
    hide TasksOk;
    hide Done;
    var p := g.owner[n];
    if p != n {
      assert ObjectOk(g, s, n) && ObjectOk(g, t, n);
      if n !in s.unstarted || n !in t.unstarted {
        var j :| 0 <= j < |s.tasks[p]| && s.tasks[p][j] == n;
        SameStarted(g, s, t, p);
        StartedWhenReady(g, s, p, j);
        StartedWhenReady(g, t, p, j);
        forall i | 0 <= i < j ensures Done(g, s, s.tasks[p][i]) == Done(g, t, s.tasks[p][i]) {
          SameDone(g, s, t, s.tasks[p][i]);
        }
      }
    }
  }

  /**
   * Every interleaving comes to the same: if two histories have released the
   * same outside holds, then the same tasks have been run, the same holds
   * are acquired, and the same batches have emitted 'release'.
   */
  lemma Confluence(g: Graph, s: State, t: State, n: nat)
    requires Inv(g, s, {}) && Inv(g, t, {}) && SameOutside(g, s, t) && Object(g, n)
    ensures n in s.unstarted <==> n in t.unstarted
    ensures Held(g, s, n) == Held(g, t, n)
    ensures Released(n) in s.log <==> Released(n) in t.log
  {
    hide Settled;
    hide StartsInOrder;
    hide Once;
    hide TasksOk;
    hide Done;
    SameStarted(g, s, t, n);
    SameDone(g, s, t, n);
    assert ObjectOk(g, s, n) && ObjectOk(g, t, n);
    if n !in s.unstarted {
      HeldUntilDone(g, s, n);
      HeldUntilDone(g, t, n);
    }
  }

  /** Once every outside hold is released, every batch that was run has emitted 'release'. */
  lemma {:induction false} AllReleased(g: Graph, s: State, n: nat)
    requires Inv(g, s, {}) && Object(g, n)
    requires forall k :: 0 <= k < |g.kind| && g.kind[k].LeafHold? ==> s.acquisitions[k] <= 0
    ensures Done(g, s, n)
    ensures g.kind[n].IsBatch() && n !in s.unstarted ==> Released(n) in s.log
    decreases g.limit[n] - n
  {
    hide Settled;
    hide StartsInOrder;
    hide Once;
    hide TasksOk;
    hide ObjectOk;
    OwnTasksAbove(g, s, n);
    LimitsBelow(g, s, n);
    forall i | 0 <= i < |s.tasks[n]| ensures Done(g, s, s.tasks[n][i]) { AllReleased(g, s, s.tasks[n][i]); }
    if g.kind[n].IsBatch() { ReleasedWhenDone(g, s, n); }
  }
}
