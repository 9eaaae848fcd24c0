/**
 * The methods of Hold, Batch, ConcurrentBatch and ConsecutiveBatch in
 * js/gdm/batch.js. The fields of all the objects are kept together, indexed
 * by object; a signal handler is the connection of a batch to the hold of a
 * task it has run, so emitting 'release' calls the owner.
 */
module Batch {
  import opened BatchModel
  import opened BatchSteps
  import opened BatchTheorems

  class Runtime {
    const g: Graph
    var tasks: seq<seq<nat>>
    var index: seq<int>
    var acquisitions: seq<int>
    var connected: seq<bool>
    ghost var unstarted: set<nat>
    ghost var log: seq<Event>

    ghost function View(): State
      reads this
    {
      State(tasks, index, acquisitions, connected, unstarted, log)
    }

    /** Hold.release(), with the handlers of its 'release' signal. */
    method Release(h: nat, ghost open: set<nat>)
      requires Object(g, h) && !g.kind[h].NoHold? && (forall b :: b in open ==> b < h)
      requires Inv(g, View(), if g.kind[h].IsBatch() then open + {h} else open)
      requires g.kind[h].IsBatch() ==> h !in unstarted && RanAll(g, View(), h, 1)
      requires connected[h] ==> open == {}
      modifies this
      ensures Inv(g, View(), open)
      ensures Touched(g, old(View()), View(), h) && (!old(connected)[h] ==> !connected[h])
      ensures OutsideKept(g, old(View()), View(), h)
      ensures g.kind[h].LeafHold? ==>
                acquisitions[h] == old(acquisitions)[h] - 1 && (h in unstarted <==> h in old(unstarted))
      decreases unstarted, h, 0
    {
      hide OutsideKept;
      hide Settled;
      hide ObjectOk;
      hide RanAll;
      hide AboutToMove;
      hide Once;
      hide StartsInOrder;
      hide TasksOk;
      ghost var s := View();
      KeptRelease(g, s, h);
      ConnectedStarted(g, s, h, if g.kind[h].IsBatch() then open + {h} else open);
      acquisitions := acquisitions[h := acquisitions[h] - 1];
      if acquisitions[h] == 0 {
        log := log + [Released(h)];
        if connected[h] {
          LoudRelease(g, s, h);
          connected := connected[h := false];
          assert View() == AfterRelease(s, h);
          var p := g.owner[h];
          ghost var t := View();
          if g.kind[p].Concurrent? {
            Release(p, {});
          } else {
            NextTask(p, {});
          }
          KeptVia(g, s, t, View(), h, p);
        } else {
          SilentRelease(g, s, h, open);
          assert connected == connected[h := false];
          assert View() == AfterRelease(s, h);
        }
      } else {
        QuietRelease(g, s, h, open);
        assert View() == AfterRelease(s, h);
      }
    }

    /** Batch.nextTask() */
    method NextTask(p: nat, ghost open: set<nat>)
      requires Object(g, p) && p !in unstarted && g.kind[p].IsBatch() && (forall b :: b in open ==> b < p)
      requires Inv(g, View(), open + {p}) && AboutToMove(g, View(), p)
      requires connected[p] ==> open == {}
      modifies this
      ensures Inv(g, View(), open)
      ensures Touched(g, old(View()), View(), p) && (!old(connected)[p] ==> !connected[p])
      ensures OutsideKept(g, old(View()), View(), p)
      decreases unstarted, p, 2
    {
      hide OutsideKept;
      hide Settled;
      hide ObjectOk;
      hide RanAll;
      hide Once;
      hide StartsInOrder;
      hide TasksOk;
      Move(g, View(), p, open);
      KeptInside(g, View(), View().(index := index[p := index[p] + 1]), p);
      index := index[p := index[p] + 1];
      ghost var t := View();
      if index[p] >= |tasks[p]| {
        Release(p, open);
      } else {
        Process(p, open);
      }
      KeptVia(g, old(View()), t, View(), p, p);
    }

    /** acquireUntilAfter() on the hold of batch p, with the hold of its task c, if c has one. */
    method AcquireUntilAfter(p: nat, c: nat, ghost open: set<nat>)
      requires Object(g, p) && p !in unstarted && g.kind[p].Concurrent?
      requires Inv(g, View(), open + {p}) && JustRan(g, View(), p) && c == tasks[p][index[p]] && Object(g, c)
      modifies this
      ensures Inv(g, View(), open + {p}) && AboutToMove(g, View(), p)
      ensures LookedAt(old(View()), p, c)
    {
      hide Settled;
      hide ObjectOk;
      hide Once;
      hide StartsInOrder;
      hide TasksOk;
      hide JustRan;
      hide AboutToMove;
      if g.kind[c].NoHold? || acquisitions[c] <= 0 {
        NotHeld(g, View(), p);
      } else {
        AcquireAndConnect(g, View(), p, open);
        acquisitions := acquisitions[p := acquisitions[p] + 1];
        connected := connected[c := true];
      }
    }

    /** The test and the connection in ConsecutiveBatch.process(): does p have to wait for its task c? */
    method WaitFor(p: nat, c: nat, ghost open: set<nat>) returns (waits: bool)
      requires Object(g, p) && p !in unstarted && g.kind[p].Consecutive? && p !in open
      requires Inv(g, View(), open + {p}) && JustRan(g, View(), p) && c == tasks[p][index[p]] && Object(g, c)
      modifies this
      ensures if waits then Inv(g, View(), open) else Inv(g, View(), open + {p}) && AboutToMove(g, View(), p)
      ensures LookedAt(old(View()), p, c)
    {
      hide Settled;
      hide ObjectOk;
      hide Once;
      hide StartsInOrder;
      hide TasksOk;
      hide JustRan;
      hide AboutToMove;
      waits := !g.kind[c].NoHold? && acquisitions[c] > 0;
      if waits {
        ConnectAndWait(g, View(), p, open);
        connected := connected[c := true];
      } else {
        NotHeld(g, View(), p);
      }
    }

    /** Only p's acquisitions and the connection to c may differ from state t. */
    ghost predicate LookedAt(t: State, p: nat, c: nat)
      reads this
    {
      && |acquisitions| == |connected| == |g.kind| == |t.acquisitions| == |t.connected|
      && View() == t.(acquisitions := acquisitions, connected := connected)
      && (forall n :: 0 <= n < |g.kind| && n != p ==> acquisitions[n] == t.acquisitions[n])
      && (forall n :: 0 <= n < |g.kind| && n != c ==> connected[n] == t.connected[n])
    }

    /** process() of ConcurrentBatch and of ConsecutiveBatch */
    method Process(p: nat, ghost open: set<nat>)
      requires Object(g, p) && p !in unstarted && g.kind[p].IsBatch() && (forall b :: b in open ==> b < p)
      requires Inv(g, View(), open + {p}) && AboutToProcess(g, View(), p)
      requires connected[p] ==> open == {}
      modifies this
      ensures Inv(g, View(), open)
      ensures Touched(g, old(View()), View(), p) && (!old(connected)[p] ==> !connected[p])
      ensures OutsideKept(g, old(View()), View(), p)
      decreases unstarted, p, if index[p] < |tasks[p]| then 1 else 3
    {
      hide OutsideKept;
      hide Settled;
      hide ObjectOk;
      hide RanAll;
      hide Once;
      hide StartsInOrder;
      hide TasksOk;
      hide JustRan;
      hide AboutToMove;
      if index[p] >= |tasks[p]| {
        // runTask() finds no task and returns null
        NothingToRun(g, View(), p);
        NextTask(p, open);
        return;
      }
      ghost var s := View();
      var c := tasks[p][index[p]];
      OnlyAt(g, s, p, index[p]);
      Run(c, open + {p});
      AfterRun(g, s, View(), p);
      ghost var t := View();
      var waits := false;
      if g.kind[p].Concurrent? {
        AcquireUntilAfter(p, c, open);
      } else {
        waits := WaitFor(p, c, open);
      }
      ghost var u := View();
      if !waits { NextTask(p, open); }
      TouchedByProcess(g, s, t, u, View(), p, c);
      KeptByProcess(g, s, t, u, View(), p, c);
    }

    /** Task.run(), Hold's run() and Batch.run() */
    method Run(n: nat, ghost open: set<nat>)
      requires Object(g, n) && n in unstarted && (forall b :: b in open ==> b < n)
      requires Inv(g, View(), open) && MayStart(g, View(), n, open)
      modifies this
      ensures Inv(g, View(), open)
      ensures n !in unstarted && !connected[n]
      ensures Shape(g, old(View())) && Shape(g, View()) && Frame(g, old(View()), View(), n, g.limit[n])
      ensures OutsideKept(g, old(View()), View(), n)
      ensures g.kind[n].LeafHold? ==> acquisitions[n] == old(acquisitions)[n]
      decreases unstarted - {n}, n, 4
    {
      hide OutsideKept;
      hide Settled;
      hide RanAll;
      hide Once;
      hide StartsInOrder;
      hide TasksOk;
      hide AboutToProcess;
      hide MayStart;
      Start(g, View(), n, open);
      assert ObjectOk(g, View(), n);
      unstarted := unstarted - {n};
      log := log + [Started(n)];
      if g.kind[n].IsBatch() {
        acquisitions := acquisitions[n := 1];
        index := index[n := 0];
        assert View() == AfterStart(g, old(View()), n);
        ghost var t := View();
        KeptStart(g, old(View()), t, n);
        Process(n, open);
        KeptVia(g, old(View()), t, View(), n, n);
      } else {
        KeptStart(g, old(View()), View(), n);
      }
    }

    /** The objects as they are created: nothing has run, every hold is acquired once. */
    constructor (g: Graph, tasks: seq<seq<nat>>)
      requires Shape(g, Fresh(g, tasks))
      ensures this.g == g && View() == Fresh(g, tasks) && Inv(g, View(), {})
    {
      this.g := g;
      this.tasks := tasks;
      index := seq(|g.kind|, _ => -1);
      acquisitions := seq(|g.kind|, _ => 1);
      connected := seq(|g.kind|, _ => false);
      unstarted := Below(|g.kind|);
      log := [];
      new;
      FreshInv(g, tasks);
    }

    /** A caller outside the batches runs a batch, or a task of its own. */
    method RunRoot(n: nat)
      requires Inv(g, View(), {})
      requires Object(g, n) && n in unstarted && IsRoot(g, View(), n)
      modifies this
      ensures Inv(g, View(), {}) && n !in unstarted
      ensures tasks == old(tasks) && unstarted <= old(unstarted) && old(log) <= log
      ensures OutsideKept(g, old(View()), View(), n)
      ensures g.kind[n].LeafHold? ==> acquisitions[n] == old(acquisitions)[n]
    {
      hide Settled;
      hide ObjectOk;
      hide Once;
      hide StartsInOrder;
      hide TasksOk;
      hide OutsideKept;
      hide IsRoot;
      assert MayStart(g, View(), n, {}) by { RootMayStart(g, View(), n); }
      Run(n, {});
    }

    /** Whoever made a hold releases it, possibly before any batch has come to it, possibly once too often. */
    method ReleaseLeaf(h: nat)
      requires Object(g, h) && g.kind[h].LeafHold?
      requires Inv(g, View(), {})
      modifies this
      ensures Inv(g, View(), {})
      ensures tasks == old(tasks) && unstarted <= old(unstarted) && old(log) <= log
      ensures OutsideKept(g, old(View()), View(), h) && acquisitions[h] == old(acquisitions)[h] - 1
      ensures h in unstarted <==> h in old(unstarted)
    {
      hide Settled;
      hide ObjectOk;
      hide Once;
      hide StartsInOrder;
      hide TasksOk;
      Release(h, {});
    }

    /** Hold.acquire(); acquiring a released hold throws. */
    method AcquireLeaf(h: nat) returns (ok: bool)
      requires Object(g, h) && g.kind[h].LeafHold?
      requires Inv(g, View(), {})
      modifies this
      ensures Inv(g, View(), {})
      ensures ok == old(Held(g, View(), h))
      ensures View() == if ok then old(View()).(acquisitions := old(acquisitions)[h := old(acquisitions)[h] + 1])
                        else old(View())
    {
      if acquisitions[h] <= 0 { return false; }
      AcquireMore(g, View(), h);
      acquisitions := acquisitions[h := acquisitions[h] + 1];
      return true;
    }

    /** Batch.cancel(); before _start the index is undefined and splice() removes every task. */
    method Cancel(b: nat)
      requires Object(g, b) && g.kind[b].IsBatch()
      requires Inv(g, View(), {})
      modifies this
      ensures Inv(g, View(), {})
      ensures View() == AfterCancel(old(View()), b)
    {
      CancelInv(g, View(), b);
      var k := index[b] + 1;
      tasks := tasks[b := if 0 <= k < |tasks[b]| then tasks[b][..k] else tasks[b]];
    }
  }

  /** What the surroundings of the batches can do, in any order. */
  datatype Call = RunIt(n: nat) | ReleaseIt(n: nat) | AcquireIt(n: nat) | CancelIt(n: nat)

  /** The acquisitions of an outside hold after some calls: batches play no part in them. */
  function HoldCount(calls: seq<Call>, h: nat): int {
    if calls == [] then 1
    else
      var before := HoldCount(calls[..|calls| - 1], h);
      match calls[|calls| - 1]
      case ReleaseIt(n) => if n == h then before - 1 else before
      case AcquireIt(n) => if n == h && before > 0 then before + 1 else before
      case _ => before
  }

  /** The outside, as far as the calls decide it: holds that are not a batch's, and the batches run as roots. */
  ghost predicate Outside(g: Graph, s: State, calls: seq<Call>) {
    && |s.acquisitions| == |g.kind| == |g.owner|
    && (forall h :: 0 <= h < |g.kind| && g.kind[h].LeafHold? ==> s.acquisitions[h] == HoldCount(calls, h))
    && (forall n :: 0 <= n < |g.kind| && g.owner[n] == n ==>
          (n !in s.unstarted <==> g.kind[n].IsBatch() && RunIt(n) in calls))
  }

  lemma OutsideStart(g: Graph, tasks: seq<seq<nat>>)
    requires Shape(g, Fresh(g, tasks))
    ensures Outside(g, Fresh(g, tasks), [])
  {
  }

  /** A call of a kind that has an effect, or one that is skipped. */
  lemma OutsideStep(g: Graph, s: State, t: State, calls: seq<Call>, c: Call)
    requires Outside(g, s, calls) && |t.acquisitions| == |g.kind| && t.unstarted <= s.unstarted
    requires match c
             case RunIt(n) =>
               if Object(g, n) && g.kind[n].IsBatch() && g.owner[n] == n && n in s.unstarted
               then OutsideKept(g, s, t, n) && n !in t.unstarted
               else t == s
             case ReleaseIt(n) =>
               if Object(g, n) && g.kind[n].LeafHold?
               then OutsideKept(g, s, t, n) && t.acquisitions[n] == s.acquisitions[n] - 1
                    && (n in t.unstarted <==> n in s.unstarted)
               else t == s
             case AcquireIt(n) =>
               if Object(g, n) && g.kind[n].LeafHold? && s.acquisitions[n] > 0
               then t == s.(acquisitions := s.acquisitions[n := s.acquisitions[n] + 1])
               else t == s
             case CancelIt(_) => t.acquisitions == s.acquisitions && t.unstarted == s.unstarted
    ensures Outside(g, t, calls + [c])
  {
    var more := calls + [c];
    assert more[..|more| - 1] == calls;
    forall n ensures RunIt(n) in more <==> RunIt(n) in calls || c == RunIt(n) {}
  }

  /** A root batch is unstarted as long as its index is negative. */
  lemma RootIndex(g: Graph, s: State, n: nat)
    requires Inv(g, s, {}) && Object(g, n) && g.kind[n].IsBatch()
    ensures s.index[n] < 0 <==> n in s.unstarted
  {
    assert ObjectOk(g, s, n);
  }

  /**
   * Plays any sequence of outside calls; the ones that make no sense at their
   * time are skipped. With Inv, what is said here about the outside decides
   * which tasks have been run and which batches are done (Confluence).
   */
  method Play(g: Graph, tasks: seq<seq<nat>>, calls: seq<Call>) returns (r: Runtime)
    requires Shape(g, Fresh(g, tasks))
    ensures r.g == g && Inv(g, r.View(), {})
    ensures Outside(g, r.View(), calls)
    ensures forall b :: 0 <= b < |g.kind| ==> r.tasks[b] <= tasks[b]
    ensures (forall b :: CancelIt(b) !in calls) ==> r.tasks == tasks
    ensures fresh(r)
  {
    hide Inv;
    hide Outside;
    r := new Runtime(g, tasks);
    InvShape(g, r.View(), {});
    OutsideStart(g, tasks);
    PlayAll(r, calls, []);
    assert [] + calls == calls;
  }

  /** More calls on batches that have had some already */
  method PlayAll(r: Runtime, calls: seq<Call>, ghost done: seq<Call>)
    requires Inv(r.g, r.View(), {}) && Shape(r.g, r.View()) && Outside(r.g, r.View(), done)
    modifies r
    ensures Inv(r.g, r.View(), {}) && Shape(r.g, r.View()) && Outside(r.g, r.View(), done + calls)
    ensures forall b :: 0 <= b < |r.g.kind| ==> r.tasks[b] <= old(r.tasks)[b]
    ensures (forall b :: CancelIt(b) !in calls) ==> r.tasks == old(r.tasks)
    ensures r.unstarted <= old(r.unstarted)
  {
    hide Inv;
    hide Outside;
    assert done + calls[..0] == done;
    for i := 0 to |calls|
      invariant Inv(r.g, r.View(), {}) && Shape(r.g, r.View())
      invariant Outside(r.g, r.View(), done + calls[..i])
      invariant forall b :: 0 <= b < |r.g.kind| ==> r.tasks[b] <= old(r.tasks)[b]
      invariant (forall b :: CancelIt(b) !in calls[..i]) ==> r.tasks == old(r.tasks)
      invariant r.unstarted <= old(r.unstarted)
    {
      PlayOne(r, calls[i], done + calls[..i]);
      assert done + calls[..i + 1] == done + calls[..i] + [calls[i]];
    }
    assert calls[..|calls|] == calls;
  }

  method PlayOne(r: Runtime, call: Call, ghost calls: seq<Call>)
    requires Inv(r.g, r.View(), {}) && Shape(r.g, r.View()) && Outside(r.g, r.View(), calls)
    modifies r
    ensures Inv(r.g, r.View(), {}) && Shape(r.g, r.View()) && Outside(r.g, r.View(), calls + [call])
    ensures forall b :: 0 <= b < |r.g.kind| ==> r.tasks[b] <= old(r.tasks)[b]
    ensures !call.CancelIt? ==> r.tasks == old(r.tasks)
    ensures r.unstarted <= old(r.unstarted)
    ensures call.CancelIt? && Object(r.g, call.n) && r.g.kind[call.n].IsBatch() ==>
              r.View() == AfterCancel(old(r.View()), call.n)
  {
    hide Inv;
    hide Outside;
    hide OutsideKept;
    hide IsRoot;
    var g := r.g;
    ghost var s := r.View();
    match call {
      case RunIt(n) =>
        if Object(g, n) && g.kind[n].IsBatch() {
          RootIndex(g, s, n);
          if g.owner[n] == n && r.index[n] < 0 {
            RootCheck(g, s, n);
            r.RunRoot(n);
          }
        }
      case ReleaseIt(n) => if Object(g, n) && g.kind[n].LeafHold? { r.ReleaseLeaf(n); }
      case AcquireIt(n) => if Object(g, n) && g.kind[n].LeafHold? { var _ := r.AcquireLeaf(n); }
      case CancelIt(n) => if Object(g, n) && g.kind[n].IsBatch() { r.Cancel(n); }
    }
    InvShape(g, r.View(), {});
    OutsideStep(g, s, r.View(), calls, call);
  }

  /** A task of a cancelled batch that had not been run by then is never run. */
  lemma CancelCuts(g: Graph, s: State, t: State, b: nat, i: nat)
    requires Inv(g, s, {}) && Inv(g, t, {}) && Object(g, b) && g.kind[b].IsBatch()
    requires s.index[b] >= -1 && t.tasks[b] <= AfterCancel(s, b).tasks[b]
    requires i < |s.tasks[b]| && s.tasks[b][i] in s.unstarted
    ensures s.tasks[b][i] in t.unstarted
  {
    hide StartsInOrder;
    hide Once;
    OwnTasksAbove(g, s, b);
    var c := s.tasks[b][i];
    CancelledNeverRuns(g, t, c);
    assert ObjectOk(g, s, b);
    if c !in t.unstarted {
      var j :| 0 <= j < |t.tasks[b]| && t.tasks[b][j] == c;
      assert s.tasks[b][j] == AfterCancel(s, b).tasks[b][j] == c;
      OnlyAt(g, s, b, i);
      if b !in s.unstarted { RunSoFar(g, s, b); }
      assert false;
    }
  }

  /** What the batch keeps are the tasks that had been run when it was cancelled, whatever is cancelled later. */
  lemma CancelKeeps(g: Graph, s: State, t: State, b: nat)
    requires Inv(g, s, {}) && Inv(g, t, {}) && Object(g, b) && g.kind[b].IsBatch()
    requires s.index[b] >= -1 && t.tasks[b] <= AfterCancel(s, b).tasks[b] && t.unstarted <= s.unstarted
    ensures t.tasks[b] == AfterCancel(s, b).tasks[b]
    ensures forall c :: c in t.tasks[b] <==> c in s.tasks[b] && c !in s.unstarted
  {
    hide StartsInOrder;
    hide Once;
    hide TasksOk;
    OwnTasksAbove(g, s, b);
    var kept := AfterCancel(s, b).tasks[b];
    assert ObjectOk(g, s, b);
    if b !in s.unstarted { RunSoFar(g, s, b); }
    forall i | 0 <= i < |kept| ensures kept[i] == s.tasks[b][i] && kept[i] !in s.unstarted {}
    if |t.tasks[b]| < |kept| {
      var i := |kept| - 1;
      CancelledNeverRuns(g, t, kept[i]);
      var j :| 0 <= j < |t.tasks[b]| && t.tasks[b][j] == kept[i];
      OnlyAt(g, s, b, i);
      assert false;
    }
    forall c | c in s.tasks[b] && c !in s.unstarted ensures c in kept {
      var i :| 0 <= i < |s.tasks[b]| && s.tasks[b][i] == c;
      CancelledNeverRuns(g, s, c);
      assert b !in s.unstarted && i <= s.index[b] && kept[i] == c;
    }
  }

  /** Those of b's tasks in state s that have been run are all done in state t. */
  ghost predicate RanDone(g: Graph, s: State, t: State, b: nat)
    requires Shape(g, s) && Shape(g, t) && Object(g, b)
  {
    OwnTasksAbove(g, s, b);
    forall i :: 0 <= i < |s.tasks[b]| && s.tasks[b][i] !in s.unstarted ==> Done(g, t, s.tasks[b][i])
  }

  /** The cancelled batch emits 'release' when the tasks are done that had been run. */
  lemma CancelReleases(g: Graph, s: State, t: State, b: nat)
    requires Inv(g, s, {}) && Inv(g, t, {}) && Object(g, b) && g.kind[b].IsBatch()
    requires forall c :: c in t.tasks[b] <==> c in s.tasks[b] && c !in s.unstarted
    ensures Released(b) in t.log <==> b !in t.unstarted && RanDone(g, s, t, b)
  {
    hide Settled;
    hide ObjectOk;
    hide StartsInOrder;
    hide Once;
    hide TasksOk;
    OwnTasksAbove(g, s, b);
    OwnTasksAbove(g, t, b);
    ReleasedWhenDone(g, t, b);
    if RanDone(g, s, t, b) {
      forall i | 0 <= i < |t.tasks[b]| ensures Done(g, t, t.tasks[b][i]) {
        assert t.tasks[b][i] in t.tasks[b];
        var j :| 0 <= j < |s.tasks[b]| && s.tasks[b][j] == t.tasks[b][i];
      }
    }
  }

  /**
   * Any calls, then cancel() on a batch, then any further calls: of the
   * batch's tasks exactly those go on that had been run when it was cancelled,
   * and it emits 'release' exactly when it has been run and they are done.
   */
  method PlayCancel(g: Graph, tasks: seq<seq<nat>>, calls: seq<Call>, b: nat, more: seq<Call>)
    returns (r: Runtime, ghost before: State)
    requires Shape(g, Fresh(g, tasks)) && Object(g, b) && g.kind[b].IsBatch()
    ensures r.g == g && Inv(g, r.View(), {}) && Outside(g, r.View(), calls + [CancelIt(b)] + more)
    ensures Inv(g, before, {}) && Outside(g, before, calls)
    ensures forall i :: 0 <= i < |before.tasks[b]| ==>
              (before.tasks[b][i] in r.unstarted <==> before.tasks[b][i] in before.unstarted)
    ensures r.tasks[b] == AfterCancel(before, b).tasks[b]
    ensures Shape(g, before) && Shape(g, r.View())
    ensures Released(b) in r.log <==> b !in r.unstarted && RanDone(g, before, r.View(), b)
  {
    hide Inv;
    hide Outside;
    hide RanDone;
    r := Play(g, tasks, calls);
    before := r.View();
    InvShape(g, before, {});
    IndexStart(g, before, b);
    PlayOne(r, CancelIt(b), calls);
    PlayAll(r, more, calls + [CancelIt(b)]);
    forall i | 0 <= i < |before.tasks[b]| && before.tasks[b][i] in before.unstarted
      ensures before.tasks[b][i] in r.unstarted
    {
      CancelCuts(g, before, r.View(), b, i);
    }
    CancelKeeps(g, before, r.View(), b);
    CancelReleases(g, before, r.View(), b);
  }

  lemma {:induction false} HoldCountIs(calls: seq<Call>, h: nat)
    requires forall n :: AcquireIt(n) !in calls
    ensures HoldCount(calls, h) + multiset(calls)[ReleaseIt(h)] == 1
  {
    if calls != [] {
      var before := calls[..|calls| - 1];
      assert calls == before + [calls[|calls| - 1]];
      HoldCountIs(before, h);
    }
  }

  /**
   * Every interleaving of the same runs and releases comes to the same: the
   * same tasks have been run, the same holds are acquired, and the same
   * batches have emitted 'release'.
   */
  lemma InterleavingsAgree(g: Graph, s: State, t: State, a: seq<Call>, b: seq<Call>, n: nat)
    requires Inv(g, s, {}) && Outside(g, s, a) && Inv(g, t, {}) && Outside(g, t, b) && s.tasks == t.tasks
    requires multiset(a) == multiset(b) && forall k :: AcquireIt(k) !in a
    requires Object(g, n)
    ensures n in s.unstarted <==> n in t.unstarted
    ensures Held(g, s, n) == Held(g, t, n)
    ensures Released(n) in s.log <==> Released(n) in t.log
  {
    hide Inv;
    InvShape(g, s, {});
    InvShape(g, t, {});
    forall k ensures AcquireIt(k) !in b { assert AcquireIt(k) in b <==> AcquireIt(k) in multiset(a); }
    forall h | 0 <= h < |g.kind| && g.kind[h].LeafHold? ensures Held(g, s, h) == Held(g, t, h) {
      HoldCountIs(a, h);
      HoldCountIs(b, h);
    }
    forall r | 0 <= r < |g.kind| && g.owner[r] == r ensures r in s.unstarted <==> r in t.unstarted {
      assert RunIt(r) in a <==> RunIt(r) in multiset(b);
    }
    Confluence(g, s, t, n);
  }
}
