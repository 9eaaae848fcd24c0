/**
 * The task batches of js/gdm/batch.js, as a heap of task objects that refer
 * to each other by number. A batch and the hold it creates when it starts
 * have the same number: each batch is run once.
 */
module BatchModel {
  /**
   * A task is a function without a result, a function that returns a hold
   * (or the hold itself), or a batch.
   */
  datatype Kind = NoHold | LeafHold | Concurrent | Consecutive
  {
    predicate IsBatch() { Concurrent? || Consecutive? }
  }

  /**
   * What never changes about the objects: their kinds, the batch each was
   * given to, and a preorder numbering, so that the objects below n are
   * those from n + 1 up to limit[n].
   */
  datatype Graph = Graph(kind: seq<Kind>, owner: seq<nat>, limit: seq<nat>)

  datatype Event = Started(task: nat) | Released(hold: nat)

  datatype State = State(
    tasks: seq<seq<nat>>,        // Batch.tasks
    index: seq<int>,             // Batch._currentTaskIndex, -1 before _start
    acquisitions: seq<int>,      // Hold._acquisitions
    connected: seq<bool>,        // is the batch that ran the object connected to its hold's 'release'?
    unstarted: set<nat>,         // objects whose run() has not been called
    log: seq<Event>)

  predicate Object(g: Graph, n: nat) { n < |g.kind| }

  ghost predicate Shape(g: Graph, s: State)
  {
    && |g.owner| == |g.limit| == |g.kind|
    && |s.tasks| == |s.index| == |s.acquisitions| == |s.connected| == |g.kind|
    && (forall n :: n in s.unstarted ==> Object(g, n))
    && (forall n :: 0 <= n < |g.kind| ==> n < g.limit[n] <= |g.kind|)
    && (forall n :: 0 <= n < |g.kind| ==> TasksOk(g, s.tasks[n], n))
  }

  /** The tasks of batch n: owned by n, in order, each with its own range of objects inside n's range. */
  ghost predicate TasksOk(g: Graph, ts: seq<nat>, n: nat)
    requires |g.owner| == |g.limit| == |g.kind| && Object(g, n)
  {
    && (!g.kind[n].IsBatch() ==> ts == [])
    && (forall i :: 0 <= i < |ts| ==> n < ts[i] < |g.kind| && g.limit[ts[i]] <= g.limit[n] && g.owner[ts[i]] == n)
    && (forall i, j :: 0 <= i < j < |ts| ==> ts[i] < g.limit[ts[i]] <= ts[j])
  }

  /** hold.isAcquired(), for an object that has a hold. */
  predicate Held(g: Graph, s: State, n: nat)
    requires Object(g, n) && |s.acquisitions| == |g.kind|
  {
    !g.kind[n].NoHold? && s.acquisitions[n] > 0
  }

  function CountHeld(g: Graph, s: State, ts: seq<nat>): nat
    requires |s.acquisitions| == |g.kind| && forall i :: 0 <= i < |ts| ==> Object(g, ts[i])
  {
    if ts == [] then 0
    else CountHeld(g, s, ts[..|ts| - 1]) + if Held(g, s, ts[|ts| - 1]) then 1 else 0
  }

  /**
   * The first k tasks of batch n have been run and their holds looked at: a
   * concurrent batch is connected to exactly those that are still acquired;
   * in a consecutive batch none is. The other tasks have not been run.
   */
  ghost predicate Passed(g: Graph, s: State, n: nat, k: nat)
    requires Shape(g, s) && Object(g, n) && k <= |s.tasks[n]|
  {
    var ts := s.tasks[n];
    && (forall i :: 0 <= i < k ==> ts[i] !in s.unstarted && s.connected[ts[i]] == Held(g, s, ts[i]))
    && (g.kind[n].Consecutive? ==> forall i :: 0 <= i < k ==> !Held(g, s, ts[i]))
    && (forall i :: k <= i < |ts| ==> ts[i] in s.unstarted)
  }

  /** The acquisitions a batch's hold needs when the first k tasks are passed and `own` are its own. */
  ghost predicate Counted(g: Graph, s: State, n: nat, k: nat, own: nat)
    requires Shape(g, s) && Object(g, n) && k <= |s.tasks[n]|
  {
    s.acquisitions[n] == own + CountHeld(g, s, s.tasks[n][..k])
  }

  /** A consecutive batch that waits for its current task. */
  ghost predicate WaitsAt(g: Graph, s: State, n: nat)
    requires Shape(g, s) && Object(g, n)
  {
    var k := s.index[n];
    && g.kind[n].Consecutive?
    && 0 <= k < |s.tasks[n]|
    && (forall i :: 0 <= i < k ==>
          s.tasks[n][i] !in s.unstarted && !s.connected[s.tasks[n][i]] && !Held(g, s, s.tasks[n][i]))
    && s.tasks[n][k] !in s.unstarted && s.connected[s.tasks[n][k]] && Held(g, s, s.tasks[n][k])
    && (forall i :: k < i < |s.tasks[n]| ==> s.tasks[n][i] in s.unstarted)
    && s.acquisitions[n] == 1
  }

  /** A batch that has run all its tasks: its hold counts the ones still acquired. */
  ghost predicate RanAll(g: Graph, s: State, n: nat, own: nat)
    requires Shape(g, s) && Object(g, n)
  {
    && s.index[n] >= |s.tasks[n]|
    && Passed(g, s, n, |s.tasks[n]|)
    && Counted(g, s, n, |s.tasks[n]|, own)
  }

  /** The state of a started batch whenever none of its methods is on the stack. */
  ghost predicate Settled(g: Graph, s: State, n: nat)
    requires Shape(g, s) && Object(g, n)
  {
    WaitsAt(g, s, n) || RanAll(g, s, n, 0)
  }

  /** process() is about to run task number index[n]. */
  ghost predicate AboutToProcess(g: Graph, s: State, n: nat)
    requires Shape(g, s) && Object(g, n)
  {
    && 0 <= s.index[n] && (s.index[n] < |s.tasks[n]| || (s.index[n] == 0 && s.tasks[n] == []))
    && Passed(g, s, n, s.index[n])
    && Counted(g, s, n, s.index[n], 1)
  }

  /** nextTask() is about to move past task number index[n]. */
  ghost predicate AboutToMove(g: Graph, s: State, n: nat)
    requires Shape(g, s) && Object(g, n)
  {
    var k := s.index[n];
    && 0 <= k
    && (k < |s.tasks[n]| ==> Passed(g, s, n, k + 1) && Counted(g, s, n, k + 1, 1))
    && (k >= |s.tasks[n]| ==> k == 0 && Passed(g, s, n, 0) && Counted(g, s, n, 0, 1))
  }

  ghost predicate ObjectOk(g: Graph, s: State, n: nat)
    requires Shape(g, s) && Object(g, n)
  {
    && (Released(n) in s.log <==> (!g.kind[n].NoHold? && s.acquisitions[n] <= 0))
    && (Started(n) in s.log <==> n !in s.unstarted)
    && s.index[n] >= -1
    && (g.kind[n].IsBatch() ==> (n in s.unstarted <==> s.index[n] < 0))
    && (n in s.unstarted ==>
          && !s.connected[n]
          && (g.kind[n].IsBatch() ==> s.acquisitions[n] == 1)
          && forall i :: 0 <= i < |s.tasks[n]| ==> s.tasks[n][i] in s.unstarted)
    && (n !in s.unstarted ==>
          g.owner[n] == n || (g.owner[n] < n && g.owner[n] !in s.unstarted && n in s.tasks[g.owner[n]]))
    && (s.connected[n] ==> g.owner[n] < n && n !in s.unstarted && Held(g, s, n))
  }

  /** Task i of a consecutive batch has been run, and its hold, if any, released, in this history. */
  predicate FinishedIn(g: Graph, n: nat, log: seq<Event>)
    requires Object(g, n)
  {
    Started(n) in log && (g.kind[n].NoHold? || Released(n) in log)
  }

  /** A task of a consecutive batch starts only when every earlier task of the batch has finished. */
  ghost predicate StartsInOrder(g: Graph, s: State)
    requires Shape(g, s)
  {
    forall k, n, i, j ::
      0 <= k < |s.log| && 0 <= n < |g.kind| && g.kind[n].Consecutive? && 0 <= i < j < |s.tasks[n]| &&
      s.log[k] == Started(s.tasks[n][j]) ==>
        FinishedIn(g, s.tasks[n][i], s.log[..k])
  }

  /** No task is run twice and no hold emits 'release' twice. */
  ghost predicate Once(log: seq<Event>) {
    forall i, j :: 0 <= i < j < |log| ==> log[i] != log[j]
  }

  /** The invariant while the methods of the batches in `open` are on the stack. */
  ghost predicate Inv(g: Graph, s: State, open: set<nat>)
  {
    && Shape(g, s)
    && (forall n :: 0 <= n < |g.kind| ==> ObjectOk(g, s, n))
    && (forall n :: 0 <= n < |g.kind| && g.kind[n].IsBatch() && n !in s.unstarted && n !in open ==> Settled(g, s, n))
    && Once(s.log)
    && StartsInOrder(g, s)
  }

  /** Only objects from lo up to hi differ, and the history has only grown. */
  ghost predicate Frame(g: Graph, s: State, t: State, lo: nat, hi: nat)
    requires Shape(g, s) && Shape(g, t)
  {
    && t.tasks == s.tasks
    && t.unstarted <= s.unstarted
    && s.log <= t.log
    && forall n :: 0 <= n < |g.kind| && !(lo <= n < hi) ==>
         && t.index[n] == s.index[n] && t.acquisitions[n] == s.acquisitions[n]
         && t.connected[n] == s.connected[n] && (n in t.unstarted <==> n in s.unstarted)
  }
}
