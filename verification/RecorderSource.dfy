/**
 * The screencast source of src/shell-recorder-src.c: a producer, the idle
 * callback of the main loop and the streaming thread, interleaved at the
 * granularity of the mutex and of the queue's operations.
 */
module RecorderSource {
  import opened Wrappers

  /** A GstBuffer: which one, and GST_BUFFER_SIZE in bytes. */
  datatype Buffer = Buffer(id: nat, size: nat)

  /** What g_async_queue_push puts into the queue; End is RECORDER_QUEUE_END. */
  datatype Item = Frame(buffer: Buffer) | End

  /** What create() returns: GST_FLOW_OK with a buffer, or GST_FLOW_UNEXPECTED. */
  datatype Flow = Ok(buffer: Buffer) | Unexpected

  const GUINT: int := 0x1_0000_0000

  /** memory_used is a guint; buffers are smaller than 4 GB. */
  function Kilobytes(b: Buffer): nat {
    b.size / 1024
  }

  /** Only full kilobytes count. */
  lemma KilobytesAre(b: Buffer)
    ensures 1024 * Kilobytes(b) <= b.size < 1024 * (Kilobytes(b) + 1)
  {
  }

  datatype State = State(
    memoryUsed: nat,
    idlePending: bool,         // memory_used_update_idle != 0
    queue: seq<Item>,
    closed: bool,
    adding: Option<Buffer>,    // add_buffer: counted, not pushed yet
    taking: Option<Buffer>,    // create: popped, not subtracted yet
    notifying: bool,           // the idle callback has cleared the id, not emitted notify yet
    notified: nat,             // the value read by the last notify
    pushed: seq<Item>,         // history of the queue's pushes
    popped: seq<Item>,         // history of its pops
    flows: seq<Flow>,          // history of what create() returned
    delivered: seq<Buffer>,    // the buffers among them
    refusals: nat)             // the number of GST_FLOW_UNEXPECTED among them

  const INITIAL := State(0, false, [], false, None, None, false, 0, [], [], [], [], 0)

  datatype Step =
    | CountAdded(buffer: Buffer)
    | PushAdded
    | PushEnd
    | ClearIdle
    | Notify
    | RefuseCreate
    | Pop
    | SubtractTaken

  predicate Enabled(s: State, step: Step) {
    match step
    case CountAdded(_) => s.adding.None?
    case PushAdded => s.adding.Some?
    case PushEnd => s.adding.None?
    case ClearIdle => s.idlePending && !s.notifying
    case Notify => s.notifying
    case RefuseCreate => s.closed && s.taking.None?
    case Pop => !s.closed && s.taking.None? && s.queue != []
    case SubtractTaken => s.taking.Some?
  }

  /** shell_recorder_src_update_memory_used: unsigned wrap-around, and at most one idle at a time. */
  function UpdateMemoryUsed(s: State, delta: int): State {
    s.(memoryUsed := (s.memoryUsed + delta) % GUINT, idlePending := true)
  }

  function Refuse(s: State): State {
    s.(flows := s.flows + [Unexpected], refusals := s.refusals + 1)
  }

  function Do(s: State, step: Step): State
    requires Enabled(s, step)
  {
    match step
    case CountAdded(b) => UpdateMemoryUsed(s, Kilobytes(b)).(adding := Some(b))
    case PushAdded =>
      s.(queue := s.queue + [Frame(s.adding.value)], pushed := s.pushed + [Frame(s.adding.value)], adding := None)
    case PushEnd => s.(queue := s.queue + [End], pushed := s.pushed + [End])
    case ClearIdle => s.(idlePending := false, notifying := true)
    case Notify => s.(notifying := false, notified := s.memoryUsed)
    case RefuseCreate => Refuse(s)
    case Pop =>
      var item := s.queue[0];
      var t := s.(queue := s.queue[1..], popped := s.popped + [item]);
      if item.End? then Refuse(t.(closed := true)) else t.(taking := Some(item.buffer))
    case SubtractTaken =>
      var b := s.taking.value;
      var kilobytes: int := Kilobytes(b);
      UpdateMemoryUsed(s, -kilobytes).(flows := s.flows + [Ok(b)], delivered := s.delivered + [b], taking := None)
  }

  // ---- Accounting and notification ----------------------------------------------

  function TotalKilobytes(items: seq<Item>): nat {
    if items == [] then 0
    else TotalKilobytes(items[1..]) + if items[0].Frame? then Kilobytes(items[0].buffer) else 0
  }

  function OptionalKilobytes(b: Option<Buffer>): nat {
    if b.None? then 0 else Kilobytes(b.value)
  }

  /** Everything that has been counted and not been subtracted. */
  function Outstanding(s: State): nat {
    TotalKilobytes(s.queue) + OptionalKilobytes(s.adding) + OptionalKilobytes(s.taking)
  }

  ghost predicate Accounted(s: State) {
    s.memoryUsed == Outstanding(s) % GUINT
  }

  /** A change of memory_used that nobody has been told of is about to be told. */
  ghost predicate NoLostNotification(s: State) {
    s.memoryUsed != s.notified ==> s.idlePending || s.notifying
  }

  // ---- Order ----------------------------------------------------------------------

  /** The buffers of a history up to the first end marker. */
  function BeforeEnd(items: seq<Item>): seq<Buffer> {
    if items == [] || items[0].End? then [] else [items[0].buffer] + BeforeEnd(items[1..])
  }

  /** First the delivered buffers, then refusals. */
  function Results(delivered: seq<Buffer>, refusals: nat): seq<Flow> {
    if refusals > 0 then Results(delivered, refusals - 1) + [Unexpected]
    else if delivered == [] then []
    else Results(delivered[..|delivered| - 1], 0) + [Ok(delivered[|delivered| - 1])]
  }

  function Taken(s: State): seq<Buffer> {
    if s.taking.Some? then [s.taking.value] else []
  }

  /**
   * What create() has returned so far: the popped buffers, except one in
   * hand, and after the end marker nothing but GST_FLOW_UNEXPECTED. Nothing
   * is popped beyond the marker.
   */
  ghost predicate InOrder(s: State) {
    && s.pushed == s.popped + s.queue
    && s.flows == Results(s.delivered, s.refusals)
    && s.delivered + Taken(s) == BeforeEnd(s.popped)
    && (forall i :: 0 <= i < |s.popped| && s.popped[i].End? ==> s.closed && i == |s.popped| - 1)
    && (s.closed ==> s.popped != [] && s.popped[|s.popped| - 1].End? && s.taking.None?)
    && (s.refusals > 0 <==> s.closed)
  }

  ghost predicate Inv(s: State) {
    Accounted(s) && NoLostNotification(s) && InOrder(s)
  }

  // ---- Every step keeps the invariant -------------------------------------------------

  lemma {:induction false} TotalAppend(items: seq<Item>, item: Item)
    ensures TotalKilobytes(items + [item]) == TotalKilobytes(items) + TotalKilobytes([item])
  {
    if items == [] {
      assert items + [item] == [item];
    } else {
      TotalAppend(items[1..], item);
      assert (items + [item])[1..] == items[1..] + [item];
    }
  }

  /** Wrap-around addition and subtraction stay in step with the true total. */
  lemma WrapAround(total: nat, delta: int)
    requires total + delta >= 0
    ensures (total % GUINT + delta) % GUINT == (total + delta) % GUINT
  {
    var q := total / GUINT;
    assert total % GUINT + delta == total + delta - q * GUINT;
    ModShift(total + delta, q);
  }

  lemma {:induction false} ModShift(x: int, q: nat)
    ensures (x - q * GUINT) % GUINT == x % GUINT
    decreases q
  {
    if q > 0 {
      ModShift(x, q - 1);
      assert x - q * GUINT == (x - (q - 1) * GUINT) - GUINT;
    }
  }

  lemma DoAccounts(s: State, step: Step)
    requires Accounted(s) && Enabled(s, step)
    ensures Accounted(Do(s, step))
  {
    match step
    case CountAdded(b) => WrapAround(Outstanding(s), Kilobytes(b));
    case PushAdded => TotalAppend(s.queue, Frame(s.adding.value));
    case PushEnd => TotalAppend(s.queue, End);
    case SubtractTaken =>
      var k: int := Kilobytes(s.taking.value);
      WrapAround(Outstanding(s), -k);
    case _ =>
  }

  lemma DoNotifies(s: State, step: Step)
    requires NoLostNotification(s) && Enabled(s, step)
    ensures NoLostNotification(Do(s, step))
  {
  }

  /** Without a marker so far, the history of buffers grows with the history of pops. */
  lemma {:induction false} BeforeEndAppend(items: seq<Item>, item: Item)
    requires forall i :: 0 <= i < |items| ==> items[i].Frame?
    ensures BeforeEnd(items + [item]) == BeforeEnd(items) + (if item.Frame? then [item.buffer] else [])
  {
    if items == [] {
      assert items + [item] == [item];
    } else {
      BeforeEndAppend(items[1..], item);
      assert (items + [item])[1..] == items[1..] + [item];
    }
  }

  lemma ResultsAppend(delivered: seq<Buffer>, b: Buffer)
    ensures Results(delivered + [b], 0) == Results(delivered, 0) + [Ok(b)]
  {
    assert (delivered + [b])[..|delivered|] == delivered;
  }

  lemma ResultsRefuse(delivered: seq<Buffer>, refusals: nat)
    ensures Results(delivered, refusals + 1) == Results(delivered, refusals) + [Unexpected]
  {
  }

  lemma PopOrders(s: State)
    requires InOrder(s) && Enabled(s, Pop)
    ensures InOrder(Do(s, Pop))
  {
    hide UpdateMemoryUsed;
    hide BeforeEnd;
    hide Results;
    BeforeEndAppend(s.popped, s.queue[0]);
    ResultsRefuse(s.delivered, s.refusals);
    assert s.queue == [s.queue[0]] + s.queue[1..];
    assert s.popped + s.queue == s.popped + [s.queue[0]] + s.queue[1..];
  }

  lemma SubtractOrders(s: State)
    requires InOrder(s) && Enabled(s, SubtractTaken)
    ensures InOrder(Do(s, SubtractTaken))
  {
    hide BeforeEnd;
    hide Results;
    hide Kilobytes;
    ResultsAppend(s.delivered, s.taking.value);
    assert Taken(Do(s, SubtractTaken)) == [];
    assert s.delivered + [s.taking.value] + [] == s.delivered + [s.taking.value];
  }

  lemma RefuseOrders(s: State)
    requires InOrder(s) && Enabled(s, RefuseCreate)
    ensures InOrder(Do(s, RefuseCreate))
  {
    hide BeforeEnd;
    hide Results;
    ResultsRefuse(s.delivered, s.refusals);
  }

  lemma PushOrders(s: State, step: Step)
    requires InOrder(s) && Enabled(s, step) && (step.PushAdded? || step.PushEnd?)
    ensures InOrder(Do(s, step))
  {
    hide BeforeEnd;
    hide Results;
  }

  lemma DoOrders(s: State, step: Step)
    requires InOrder(s) && Enabled(s, step)
    ensures InOrder(Do(s, step))
  {
    hide BeforeEnd;
    hide Results;
    match step
    case Pop => PopOrders(s);
    case SubtractTaken => SubtractOrders(s);
    case RefuseCreate => RefuseOrders(s);
    case PushAdded => PushOrders(s, step);
    case PushEnd => PushOrders(s, step);
    case _ =>
  }

  lemma DoInv(s: State, step: Step)
    requires Inv(s) && Enabled(s, step)
    ensures Inv(Do(s, step))
  {
    DoAccounts(s, step);
    DoNotifies(s, step);
    DoOrders(s, step);
  }

  // ---- Runs -----------------------------------------------------------------------------

  /** Some interleaving of the three threads: every step is enabled when it is taken. */
  ghost predicate IsRun(states: seq<State>, steps: seq<Step>) {
    && |states| == |steps| + 1
    && states[0] == INITIAL
    && forall i :: 0 <= i < |steps| ==> Enabled(states[i], steps[i]) && states[i + 1] == Do(states[i], steps[i])
  }

  lemma InitialInv()
    ensures Inv(INITIAL)
  {
    hide InOrder;
    hide Accounted;
    InitialAccount();
    InitialOrder();
  }

  lemma InitialAccount()
    ensures Accounted(INITIAL)
  {
    hide Kilobytes;
    assert TotalKilobytes([]) == 0;
    assert Outstanding(INITIAL) == 0;
  }

  lemma InitialOrder()
    ensures InOrder(INITIAL)
  {
  }

  lemma {:induction false} RunInv(states: seq<State>, steps: seq<Step>, n: nat)
    requires IsRun(states, steps) && n < |states|
    ensures Inv(states[n])
  {
    hide Inv;
    hide Do;
    hide Enabled;
    if n == 0 {
      InitialInv();
    } else {
      RunInv(states, steps, n - 1);
      DoInv(states[n - 1], steps[n - 1]);
    }
  }

  // ---- What went in, from the steps alone ----------------------------------------------

  /** The buffer that add_buffer has counted last, unless it has been pushed since. */
  function InHand(steps: seq<Step>): Option<Buffer> {
    if steps == [] then None
    else match steps[|steps| - 1]
      case CountAdded(b) => Some(b)
      case PushAdded => None
      case _ => InHand(steps[..|steps| - 1])
  }

  /** What has been added to the queue: the buffer in hand at each push, and a marker for each close. */
  function Added(steps: seq<Step>): seq<Item> {
    if steps == [] then []
    else
      var before := steps[..|steps| - 1];
      Added(before) + match steps[|steps| - 1]
                      case PushAdded => (match InHand(before) case Some(b) => [Frame(b)] case None => [])
                      case PushEnd => [End]
                      case _ => []
  }

  /** The total size of the buffers that were handed to add_buffer. */
  function CountedKilobytes(steps: seq<Step>): nat {
    if steps == [] then 0
    else
      var e := steps[|steps| - 1];
      CountedKilobytes(steps[..|steps| - 1]) + if e.CountAdded? then Kilobytes(e.buffer) else 0
  }

  function BufferKilobytes(bs: seq<Buffer>): nat {
    if bs == [] then 0 else BufferKilobytes(bs[..|bs| - 1]) + Kilobytes(bs[|bs| - 1])
  }

  lemma AddedSnoc(steps: seq<Step>, step: Step)
    ensures InHand(steps + [step]) ==
            match step case CountAdded(b) => Some(b) case PushAdded => None case _ => InHand(steps)
    ensures Added(steps + [step]) ==
            Added(steps) + match step
                           case PushAdded => (match InHand(steps) case Some(b) => [Frame(b)] case None => [])
                           case PushEnd => [End]
                           case _ => []
    ensures CountedKilobytes(steps + [step]) ==
            CountedKilobytes(steps) + if step.CountAdded? then Kilobytes(step.buffer) else 0
  {
    assert (steps + [step])[..|steps|] == steps;
  }

  lemma DoAdds(s: State, steps: seq<Step>, step: Step)
    requires Enabled(s, step) && s.pushed == Added(steps) && s.adding == InHand(steps)
    ensures Do(s, step).pushed == Added(steps + [step]) && Do(s, step).adding == InHand(steps + [step])
  {
    hide Added;
    hide InHand;
    hide CountedKilobytes;
    hide Kilobytes;
    hide UpdateMemoryUsed;
    AddedSnoc(steps, step);
    UpdateOnly(s);
  }

  /** Updating the counter leaves the queue and its histories alone. */
  lemma UpdateOnly(s: State)
    ensures forall delta :: UpdateMemoryUsed(s, delta) ==
              s.(memoryUsed := UpdateMemoryUsed(s, delta).memoryUsed, idlePending := true)
  {
  }

  lemma {:induction false} AddedIs(states: seq<State>, steps: seq<Step>, n: nat)
    requires IsRun(states, steps) && n < |states|
    ensures states[n].pushed == Added(steps[..n]) && states[n].adding == InHand(steps[..n])
  {
    hide Do;
    hide Enabled;
    if n > 0 {
      AddedIs(states, steps, n - 1);
      DoAdds(states[n - 1], steps[..n - 1], steps[n - 1]);
      assert steps[..n] == steps[..n - 1] + [steps[n - 1]];
    }
  }

  /** What one step counts is outstanding or delivered afterwards. */
  lemma DoConserves(s: State, step: Step)
    requires Enabled(s, step)
    ensures Outstanding(Do(s, step)) + BufferKilobytes(Do(s, step).delivered)
            == Outstanding(s) + BufferKilobytes(s.delivered) + if step.CountAdded? then Kilobytes(step.buffer) else 0
  {
    hide Kilobytes;
    match step
    case PushAdded => TotalAppend(s.queue, Frame(s.adding.value));
    case PushEnd => TotalAppend(s.queue, End);
    case SubtractTaken =>
      var more := s.delivered + [s.taking.value];
      assert more[..|more| - 1] == s.delivered;
    case _ =>
  }

  lemma InitialConserves()
    ensures Outstanding(INITIAL) + BufferKilobytes(INITIAL.delivered) == CountedKilobytes([])
  {
  }

  lemma {:induction false} RunConserves(states: seq<State>, steps: seq<Step>, n: nat)
    requires IsRun(states, steps) && n < |states|
    ensures Outstanding(states[n]) + BufferKilobytes(states[n].delivered) == CountedKilobytes(steps[..n])
  {
    hide Outstanding;
    hide Enabled;
    hide Do;
    hide CountedKilobytes;
    if n == 0 {
      InitialConserves();
      assert steps[..0] == [];
    } else {
      RunConserves(states, steps, n - 1);
      DoConserves(states[n - 1], steps[n - 1]);
      AddedSnoc(steps[..n - 1], steps[n - 1]);
      assert steps[..n] == steps[..n - 1] + [steps[n - 1]];
    }
  }

  /**
   * In every interleaving, memory_used is the total size of the buffers that
   * are queued, or counted on their way in, or popped on their way out, which
   * is what was handed in less what was handed out, modulo the width of the
   * field; in particular it is that total whenever the total fits, so it never
   * goes below zero.
   */
  lemma MemoryUsedIsExact(states: seq<State>, steps: seq<Step>, n: nat)
    requires IsRun(states, steps) && n < |states|
    ensures Outstanding(states[n]) == CountedKilobytes(steps[..n]) - BufferKilobytes(states[n].delivered)
    ensures states[n].memoryUsed == Outstanding(states[n]) % GUINT
    ensures Outstanding(states[n]) < GUINT ==> states[n].memoryUsed == Outstanding(states[n])
  {
    RunInv(states, steps, n);
    RunConserves(states, steps, n);
  }

  /** An idle is pending from a change of the counter on, until the idle has cleared its id. */
  predicate IdleQueued(steps: seq<Step>) {
    if steps == [] then false
    else match steps[|steps| - 1]
      case CountAdded(_) => true
      case SubtractTaken => true
      case ClearIdle => false
      case _ => IdleQueued(steps[..|steps| - 1])
  }

  /** The idle has begun and not emitted notify yet. */
  predicate IdleRunning(steps: seq<Step>) {
    if steps == [] then false
    else match steps[|steps| - 1]
      case ClearIdle => true
      case Notify => false
      case _ => IdleRunning(steps[..|steps| - 1])
  }

  lemma DoIdles(s: State, steps: seq<Step>, step: Step)
    requires Enabled(s, step) && s.idlePending == IdleQueued(steps) && s.notifying == IdleRunning(steps)
    ensures Do(s, step).idlePending == IdleQueued(steps + [step])
    ensures Do(s, step).notifying == IdleRunning(steps + [step])
  {
    assert (steps + [step])[..|steps|] == steps;
  }

  lemma {:induction false} IdlesAre(states: seq<State>, steps: seq<Step>, n: nat)
    requires IsRun(states, steps) && n < |states|
    ensures states[n].idlePending == IdleQueued(steps[..n]) && states[n].notifying == IdleRunning(steps[..n])
  {
    hide Do;
    hide Enabled;
    if n > 0 {
      IdlesAre(states, steps, n - 1);
      DoIdles(states[n - 1], steps[..n - 1], steps[n - 1]);
      assert steps[..n] == steps[..n - 1] + [steps[n - 1]];
    }
  }

  /**
   * Once an idle has begun after the last change and has notified, the value
   * it has notified is the current one.
   */
  lemma QuietMeansNotified(states: seq<State>, steps: seq<Step>, n: nat)
    requires IsRun(states, steps) && n < |states|
    requires !IdleQueued(steps[..n]) && !IdleRunning(steps[..n])
    ensures states[n].notified == states[n].memoryUsed
  {
    hide IdleQueued;
    hide IdleRunning;
    RunInv(states, steps, n);
    IdlesAre(states, steps, n);
  }

  lemma {:induction false} BeforeEndPrefix(popped: seq<Item>, queue: seq<Item>)
    ensures BeforeEnd(popped) <= BeforeEnd(popped + queue)
    ensures (exists i :: 0 <= i < |popped| && popped[i].End?) ==> BeforeEnd(popped) == BeforeEnd(popped + queue)
  {
    if popped == [] {
      assert popped + queue == queue;
    } else {
      BeforeEndPrefix(popped[1..], queue);
      assert (popped + queue)[1..] == popped[1..] + queue;
      if i :| 0 <= i < |popped| && popped[i].End? {
        if i > 0 { assert popped[1..][i - 1].End?; }
      }
    }
  }

  /**
   * The stream: what create() hands out is, in order and without omission, a
   * prefix of the buffers that the steps have added before the first close;
   * it says end of stream only when it has handed out all of them, and nothing
   * but end of stream from then on.
   */
  lemma StreamOrder(states: seq<State>, steps: seq<Step>, n: nat)
    requires IsRun(states, steps) && n < |states|
    ensures var s := states[n];
            && s.flows == Results(s.delivered, s.refusals)
            && s.delivered <= BeforeEnd(Added(steps[..n]))
            && (s.refusals > 0 ==> End in Added(steps[..n]) && s.delivered == BeforeEnd(Added(steps[..n])))
  {
    hide BeforeEnd;
    hide Results;
    hide Added;
    RunInv(states, steps, n);
    AddedIs(states, steps, n);
    var s := states[n];
    BeforeEndPrefix(s.popped, s.queue);
    assert s.delivered <= s.delivered + Taken(s);
    if s.refusals > 0 {
      assert s.popped[|s.popped| - 1].End?;
      assert s.pushed[|s.popped| - 1] == End;
    }
  }

  // ---- The object ---------------------------------------------------------------------------

  /** ShellRecorderSrc. Each method is what one thread does between two points where another may come in. */
  class ShellRecorderSrc {
    var queue: seq<Item>
    var closed: bool
    var memoryUsed: nat
    var idlePending: bool
    ghost var adding: Option<Buffer>
    ghost var taking: Option<Buffer>
    ghost var notifying: bool
    ghost var notified: nat
    ghost var pushed: seq<Item>
    ghost var popped: seq<Item>
    ghost var flows: seq<Flow>
    ghost var delivered: seq<Buffer>
    ghost var refusals: nat

    ghost function View(): State
      reads this
    {
      State(memoryUsed, idlePending, queue, closed, adding, taking, notifying, notified, pushed, popped, flows,
            delivered, refusals)
    }

    constructor ()
      ensures View() == INITIAL && Inv(View())
    {
      queue, closed, memoryUsed, idlePending := [], false, 0, false;
      adding, taking, notifying, notified := None, None, false, 0;
      pushed, popped, flows, delivered, refusals := [], [], [], [], 0;
      new;
      InitialInv();
    }

    /** The critical section of shell_recorder_src_update_memory_used. */
    method UpdateMemory(delta: int)
      modifies this`memoryUsed, this`idlePending
      ensures View() == UpdateMemoryUsed(old(View()), delta)
    {
      memoryUsed := (memoryUsed + delta) % GUINT;
      if !idlePending { idlePending := true; }
    }

    /** shell_recorder_src_add_buffer, first half. */
    method AddBufferCount(b: Buffer)
      requires Inv(View()) && Enabled(View(), CountAdded(b))
      modifies this
      ensures View() == Do(old(View()), CountAdded(b)) && Inv(View())
    {
      hide Inv;
      DoInv(View(), CountAdded(b));
      UpdateMemory(b.size / 1024);
      adding := Some(b);
    }

    /** shell_recorder_src_add_buffer, second half. */
    method AddBufferPush(b: Buffer)
      requires Inv(View()) && adding == Some(b)
      modifies this
      ensures View() == Do(old(View()), PushAdded) && Inv(View())
    {
      hide Inv;
      DoInv(View(), PushAdded);
      queue := queue + [Frame(b)];
      pushed, adding := pushed + [Frame(b)], None;
    }

    /** shell_recorder_src_close */
    method Close()
      requires Inv(View()) && Enabled(View(), PushEnd)
      modifies this
      ensures View() == Do(old(View()), PushEnd) && Inv(View())
    {
      hide Inv;
      DoInv(View(), PushEnd);
      queue := queue + [End];
      pushed := pushed + [End];
    }

    /** shell_recorder_src_memory_used_update_idle, the critical section. */
    method IdleClear()
      requires Inv(View()) && Enabled(View(), ClearIdle)
      modifies this
      ensures View() == Do(old(View()), ClearIdle) && Inv(View())
    {
      hide Inv;
      DoInv(View(), ClearIdle);
      idlePending := false;
      notifying := true;
    }

    /** g_object_notify: whoever listens reads the property. */
    method IdleNotify() returns (value: nat)
      requires Inv(View()) && Enabled(View(), Notify)
      modifies this
      ensures View() == Do(old(View()), Notify) && Inv(View()) && value == memoryUsed
    {
      hide Inv;
      DoInv(View(), Notify);
      value := memoryUsed;
      notifying, notified := false, memoryUsed;
    }

    /**
     * shell_recorder_src_create up to the pop. None means GST_FLOW_UNEXPECTED;
     * on an empty queue the pop blocks.
     */
    method CreatePop() returns (r: Option<Buffer>)
      requires Inv(View()) && taking.None? && (closed || queue != [])
      modifies this
      ensures Inv(View())
      ensures View() == Do(old(View()), if old(closed) then RefuseCreate else Pop)
      ensures r == taking && (r.None? <==> |flows| == |old(flows)| + 1)
    {
      hide Inv;
      DoInv(View(), if closed then RefuseCreate else Pop);
      if closed {
        flows, refusals := flows + [Unexpected], refusals + 1;
        return None;
      }
      var item := queue[0];
      queue := queue[1..];
      popped := popped + [item];
      if item.End? {
        closed := true;
        flows, refusals := flows + [Unexpected], refusals + 1;
        return None;
      }
      taking := Some(item.buffer);
      return Some(item.buffer);
    }

    /** The rest of shell_recorder_src_create. */
    method CreateReturn(b: Buffer) returns (buffer: Buffer)
      requires Inv(View()) && taking == Some(b)
      modifies this
      ensures View() == Do(old(View()), SubtractTaken) && Inv(View()) && buffer == b
    {
      hide Inv;
      DoInv(View(), SubtractTaken);
      UpdateMemory(-(b.size / 1024 as int));
      flows, delivered, taking := flows + [Ok(b)], delivered + [b], None;
      buffer := b;
    }
  }
}
